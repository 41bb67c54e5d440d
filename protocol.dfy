/** The command lines peers exchange on the channel: two U+0001 characters,
    a verb, a revision id and an optional parameter, separated by spaces.
    This module writes them the way `VandalNw::Good`, `Rollback`,
    `SuspiciousWikiEdit` and `WarningSent` do, and reads them back the way
    `VandalNw::ProcessCommand` does. */
module Protocol {
  import opened QtString
  import opened Wrappers


  /** The marker in front of every command line. */
  const Prefix: string := [1 as char, 1 as char]

  /** `Prefix + verb + " " + QString::number(revid)`. */
  function CommandLine(verb: string, revid: int): string
  {
    Prefix + verb + " " + IntToString(revid)
  }

  /** The WARN line: warning level, then the percent-encoded user name. */
  function WarnLine(level: int, encodedUser: string): string
  {
    Prefix + "WARN" + " " + IntToString(level) + " " + encodedUser
  }

  /** The line a peer sends to report a score; the relay only reads it. */
  function ScoredLine(revid: int, score: int): string
  {
    Prefix + "SCORED" + " " + IntToString(revid) + " " + IntToString(score)
  }

  /** The three words `ProcessCommand` cuts a line into. */
  datatype Tokens = Tokens(verb: string, revid: string, parameter: string)

  /** The verb runs from index 2 (after the marker, whatever those two
      characters are) to the next space; the revision id starts after the
      line's first space and runs to the next one; the parameter is the rest.
      A line with no space after index 2 is not a command at all. */
  function Tokenise(message: string): Option<Tokens>
  {
    var command := Mid(message, 2, -1);
    if ' ' !in command then None
    else
      var verb := Mid(command, 0, IndexOf(command, ' '));
      Some(CutParameter(verb, Mid(message, IndexOf(message, ' ') + 1, -1)))
  }

  /** The text after the first space holds the revision id up to its own
      first space and the parameter after it. */
  function CutParameter(verb: string, revid: string): Tokens
  {
    if ' ' in revid then
      Tokens(verb, Mid(revid, 0, IndexOf(revid, ' ')), Mid(revid, IndexOf(revid, ' ') + 1, -1))
    else
      Tokens(verb, revid, "")
  }

  /** A decoded line. Verbs are matched case-sensitively; WARN and every other
      verb are ignored on the receiving side, and so is a line without a
      space. */
  datatype Command =
    | Good(RevID: int)
    | Rollback(RevID: int)
    | Suspicious(RevID: int)
    | Scored(RevID: int, Score: int)
    | Ignored

  function Decode(message: string): Command
  {
    match Tokenise(message)
    case None => Ignored
    case Some(t) => Interpret(t)
  }

  /** What the three words of a line mean. */
  function Interpret(t: Tokens): Command
  {
    if t.verb == "GOOD" then Good(ParseDecimal(t.revid))
    else if t.verb == "ROLLBACK" then Rollback(ParseDecimal(t.revid))
    else if t.verb == "SUSPICIOUS" then Suspicious(ParseDecimal(t.revid))
    else if t.verb == "SCORED" then Scored(ParseDecimal(t.revid), ParseDecimal(t.parameter))
    else Ignored
  }

  /** The revision id a command names; 0 for an ignored line. */
  function RevIDOf(c: Command): int
  {
    if c.Ignored? then 0 else c.RevID
  }

  /** Cutting `word rest` at its first space gives the word and the rest. */
  lemma CutWord(word: string, rest: string)
    requires ' ' !in word
    ensures var s := word + " " + rest;
      ' ' in s && IndexOf(s, ' ') == |word|
      && Mid(s, 0, IndexOf(s, ' ')) == word
      && Mid(s, IndexOf(s, ' ') + 1, -1) == rest
  {
    var s := word + " " + rest;
    assert s == word + (" " + rest);
    IndexOfAfterFree(word, " " + rest, ' ');
    assert IndexOf(" " + rest, ' ') == 0;
    assert s[..|word|] == word;
    assert s[|word| + 1..] == rest;
  }

  lemma TokeniseWords(message: string, verb: string, rest: string)
    requires ' ' !in verb
    requires message == Prefix + verb + " " + rest
    ensures Tokenise(message) == Some(CutParameter(verb, rest))
  {
    var command := Mid(message, 2, -1);
    assert message == Prefix + (verb + " " + rest);
    AfterPrefix(verb + " " + rest);
    CutWord(verb, rest);
    PrefixHasNoSpace(verb);
    assert message == (Prefix + verb) + " " + rest;
    CutWord(Prefix + verb, rest);
  }

  /** The two marker characters are skipped, whatever follows them. */
  lemma AfterPrefix(s: string)
    ensures Mid(Prefix + s, 2, -1) == s
  {
    assert (Prefix + s)[2..] == s;
  }

  lemma PrefixHasNoSpace(verb: string)
    requires ' ' !in verb
    ensures ' ' !in Prefix + verb
  {
  }

  /** Splitting `Prefix verb arg` gives back the verb and the argument. */
  lemma TokeniseTwo(verb: string, arg: string)
    requires ' ' !in verb && ' ' !in arg
    ensures Tokenise(Prefix + verb + " " + arg) == Some(Tokens(verb, arg, ""))
  {
    TokeniseWords(Prefix + verb + " " + arg, verb, arg);
  }

  /** Splitting `Prefix verb arg param` gives back all three; the parameter
      may itself hold spaces. */
  lemma TokeniseThree(verb: string, arg: string, param: string)
    requires ' ' !in verb && ' ' !in arg
    ensures Tokenise(Prefix + verb + " " + arg + " " + param) == Some(Tokens(verb, arg, param))
  {
    var rest := arg + " " + param;
    assert Prefix + verb + " " + arg + " " + param == Prefix + verb + " " + rest;
    TokeniseWords(Prefix + verb + " " + rest, verb, rest);
    CutWord(arg, param);
  }

  /** What Good, Rollback and SuspiciousWikiEdit send decodes to the same
      verb and revision id. */
  lemma DecodeCommandLine(revid: int)
    ensures Decode(CommandLine("GOOD", revid)) == Good(revid)
    ensures Decode(CommandLine("ROLLBACK", revid)) == Rollback(revid)
    ensures Decode(CommandLine("SUSPICIOUS", revid)) == Suspicious(revid)
  {
    VerbsHaveNoSpace();
    DecodeVerb(revid, "GOOD");
    DecodeVerb(revid, "ROLLBACK");
    DecodeVerb(revid, "SUSPICIOUS");
  }

  /** None of the verbs holds a space. */
  lemma VerbsHaveNoSpace()
    ensures ' ' !in "GOOD" && ' ' !in "ROLLBACK" && ' ' !in "SUSPICIOUS"
    ensures ' ' !in "SCORED" && ' ' !in "WARN" && ' ' !in "good"
  {
  }

  /** A command line decodes to what its verb and revision id mean. */
  lemma DecodeVerb(revid: int, verb: string)
    requires ' ' !in verb
    ensures Decode(CommandLine(verb, revid)) == Interpret(Tokens(verb, IntToString(revid), ""))
    ensures ParseDecimal(IntToString(revid)) == revid
  {
    IntToStringRoundTrip(revid);
    CommandLineTokens(verb, revid);
  }

  lemma CommandLineTokens(verb: string, revid: int)
    requires ' ' !in verb
    ensures Tokenise(CommandLine(verb, revid)) == Some(Tokens(verb, IntToString(revid), ""))
  {
    IntToStringHasNoSpace(revid);
    TokeniseTwo(verb, IntToString(revid));
  }

  /** Anything after the revision id is ignored by the three plain verbs. */
  lemma DecodeIgnoresTrailing(revid: int, trailing: string)
    ensures Decode(CommandLine("GOOD", revid) + " " + trailing) == Good(revid)
  {
    VerbsHaveNoSpace();
    IntToStringHasNoSpace(revid);
    IntToStringRoundTrip(revid);
    TokeniseThree("GOOD", IntToString(revid), trailing);
  }

  /** A score line decodes to its revision id and score, negative ones too. */
  lemma DecodeScoredLine(revid: int, score: int)
    ensures Decode(ScoredLine(revid, score)) == Scored(revid, score)
  {
    VerbsHaveNoSpace();
    var r, s := IntToString(revid), IntToString(score);
    IntToStringHasNoSpace(revid);
    IntToStringRoundTrip(revid);
    IntToStringRoundTrip(score);
    TokeniseThree("SCORED", r, s);
  }

  /** The relay sends WARN lines but does nothing with those it receives. */
  lemma WarnLineIgnored(level: int, encodedUser: string)
    ensures Decode(WarnLine(level, encodedUser)) == Ignored
  {
    VerbsHaveNoSpace();
    var l := IntToString(level);
    IntToStringHasNoSpace(level);
    TokeniseThree("WARN", l, encodedUser);
  }

  /** A marked line whose verb has no space after it is dropped: `GOOD`
      alone, without a revision id, is ignored. */
  lemma VerbWithoutArgumentIgnored(verb: string)
    requires ' ' !in verb
    ensures Decode(Prefix + verb) == Ignored
  {
    assert Mid(Prefix + verb, 2, -1) == verb;
  }

  /** Verbs are compared case-sensitively. */
  lemma LowerCaseVerbIgnored(revid: int)
    ensures Decode(CommandLine("good", revid)) == Ignored
  {
    VerbsHaveNoSpace();
    CommandLineTokens("good", revid);
  }
}
