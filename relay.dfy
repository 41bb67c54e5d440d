/** `Huggle::VandalNw`, the anti-vandalism network relay: it tells peers on
    IRC what this client decided about an edit, and applies what peers report
    to the edits in the queue, or keeps the report until the edit arrives. */
module Relay {
  import opened Wrappers
  import opened QtString
  import opened Channels
  import opened Sanitiser
  import opened Protocol
  import opened Pending
  import opened Wiki
  import opened Transport

  /** `HAN::MessageType`: how a line in the relay's window is classed. */
  datatype MessageType = InfoMessage | UserMessage | BotMessage | UserTalkMessage

  /** What a line in the relay's window reports. The HTML wording and the
      diff link around it are not modelled. */
  datatype Event =
    | Connecting
    | Disconnected
    | LoggedIn
    | LostConnection
    | NetworkFailure(Reason: string)
    | SawGood(Peer: string, Edit: WikiEdit)
    | DidRollback(Peer: string, Edit: WikiEdit)
    | ThinksSuspicious(Peer: string, Edit: WikiEdit)
    | Rescored(Peer: string, Edit: WikiEdit, Score: int)
    | Chat(Text: string)

  /** One call of `Insert(text, type)`. */
  datatype Notice = Notice(Type: MessageType, What: Event)

  /** The settings the relay reads from the global configuration. */
  datatype Config = Config(
    CacheHAN: nat,
    DeleteEditsAfterRevert: bool,
    HtmlAllowedInIrc: bool,
    DeveloperMode: bool,
    VandalNwLogin: bool,
    Multiple: bool,
    Username: string,
    Project: WikiSite,
    HANMask: string,
    Projects: seq<WikiSite>)

  /** How an outgoing report ended: sent, or one of the two exceptions. */
  datatype Outcome = Sent | NullPointer | NoChannel

  /** The four pending lists. */
  datatype Kind = GoodKind | RollbackKind | SuspiciousKind | ScoredKind

  /** A nick with "bot" in it, in any case, is a bot. */
  function PeerType(nick: string): MessageType
  {
    if Contains(ToLower(nick), "bot") then BotMessage else UserMessage
  }

  /** The chat line shown for a plain channel message. */
  function ChatLine(nick: string, site: WikiSite, text: string, multiple: bool): string
  {
    if multiple then nick + " (" + site.Name + "): " + text else nick + ": " + text
  }

  class VandalNw {
    var Site2Channel: map<WikiSite, string>
    var Ch2Site: map<string, WikiSite>
    var UnparsedGood: seq<HanItem>
    var UnparsedRoll: seq<HanItem>
    var UnparsedSusp: seq<HanItem>
    var UnparsedScores: seq<HanItem>
    var JoinedMain: bool
    const Irc: Network
    const Queue: EditQueue
    const HtmlEncode: string -> string
    const PercentEncode: string -> string
    ghost var Shown: seq<Notice>

    /** `UnparsedScores` is a list of `RescoreItem`s, the others of
        `GenericItem`s. */
    predicate Valid()
      reads this
    {
      (forall i :: 0 <= i < |UnparsedScores| ==> UnparsedScores[i].RescoreItem?)
      && (forall i :: 0 <= i < |UnparsedGood| ==> UnparsedGood[i].GenericItem?)
      && (forall i :: 0 <= i < |UnparsedRoll| ==> UnparsedRoll[i].GenericItem?)
      && (forall i :: 0 <= i < |UnparsedSusp| ==> UnparsedSusp[i].GenericItem?)
    }

    /** No pending list is longer than one more than the cache size. */
    predicate Bounded(cache: nat)
      reads this
    {
      |UnparsedGood| <= cache + 1 && |UnparsedRoll| <= cache + 1
      && |UnparsedSusp| <= cache + 1 && |UnparsedScores| <= cache + 1
    }

    function Unparsed(k: Kind): seq<HanItem>
      reads this
    {
      match k
      case GoodKind => UnparsedGood
      case RollbackKind => UnparsedRoll
      case SuspiciousKind => UnparsedSusp
      case ScoredKind => UnparsedScores
    }

    /** List `k` now holds `list`, and the other three are as they were. */
    twostate predicate ListsAfter(k: Kind, list: seq<HanItem>)
      reads this
    {
      Unparsed(k) == list
      && (k != GoodKind ==> UnparsedGood == old(UnparsedGood))
      && (k != RollbackKind ==> UnparsedRoll == old(UnparsedRoll))
      && (k != SuspiciousKind ==> UnparsedSusp == old(UnparsedSusp))
      && (k != ScoredKind ==> UnparsedScores == old(UnparsedScores))
    }

    twostate predicate ListsUnchanged()
      reads this
    {
      UnparsedGood == old(UnparsedGood) && UnparsedRoll == old(UnparsedRoll)
      && UnparsedSusp == old(UnparsedSusp) && UnparsedScores == old(UnparsedScores)
    }

    twostate predicate SessionUnchanged()
      reads this
    {
      Site2Channel == old(Site2Channel) && Ch2Site == old(Ch2Site) && JoinedMain == old(JoinedMain)
    }

    /** The window got `ns`, the queue got the requests `reqs` and holds the
        same edits. */
    twostate predicate Effects(ns: seq<Notice>, reqs: seq<QueueRequest>)
      reads this, Queue
    {
      Shown == old(Shown) + ns
      && Queue.Edits == old(Queue.Edits)
      && Queue.Requests == old(Queue.Requests) + reqs
    }

    twostate predicate EditAfter(e: WikiEdit, score: int, labels: map<string, string>, badness: int)
      reads e, e.User
    {
      e.Score == score && e.MetaLabels == labels && e.User.BadnessScore == badness
    }

    /** `ProcessGood`: the author's badness drops by 200 and the queue is
        asked to drop the edit. */
    twostate predicate GoodDone(e: WikiEdit, peer: string)
      reads this, Queue, e, e.User
    {
      Effects([Notice(UserMessage, SawGood(peer, e))], [DeleteByRevID(e.RevID, e.Site)])
      && EditAfter(e, old(e.Score), old(e.MetaLabels), old(e.User.BadnessScore) - 200)
    }

    /** `ProcessRollback`: the author's badness rises by 200; the queue is
        asked to drop older edits when so configured, then the edit itself. */
    twostate predicate RollbackDone(e: WikiEdit, peer: string, deleteOlder: bool)
      reads this, Queue, e, e.User
    {
      Effects([Notice(UserMessage, DidRollback(peer, e))],
              (if deleteOlder then [DeleteOlder(e)] else []) + [DeleteByRevID(e.RevID, e.Site)])
      && EditAfter(e, old(e.Score), old(e.MetaLabels), old(e.User.BadnessScore) + 200)
    }

    /** `ProcessSusp`: the edit's score rises by 600 and the queue re-sorts it. */
    twostate predicate SuspDone(e: WikiEdit, peer: string)
      reads this, Queue, e, e.User
    {
      Effects([Notice(UserMessage, ThinksSuspicious(peer, e))], [SortItemByEdit(e)])
      && EditAfter(e, old(e.Score) + 600, old(e.MetaLabels), old(e.User.BadnessScore))
    }

    /** A peer's score merged into an edit: added to the score, and kept as
        the "Bot score" label only when there is none yet. */
    twostate predicate ScoreMerged(e: WikiEdit, peer: string, score: int, reqs: seq<QueueRequest>)
      reads this, Queue, e, e.User
    {
      Effects([Notice(PeerType(peer), Rescored(peer, e, score))], reqs)
      && EditAfter(e, old(e.Score) + score, WithScoreLabel(old(e.MetaLabels), score), old(e.User.BadnessScore))
    }

    twostate predicate Processed(k: Kind, e: WikiEdit, peer: string, cfg: Config)
      reads this, Queue, e, e.User
    {
      match k
      case GoodKind => GoodDone(e, peer)
      case RollbackKind => RollbackDone(e, peer, cfg.DeleteEditsAfterRevert)
      case SuspiciousKind => SuspDone(e, peer)
      case ScoredKind => false
    }

    /** The edit and author a command line would change: the queued edit it
        names, when there is one and the line is not ignored. */
    function Touched(site: WikiSite, message: string): set<object>
      reads Queue
    {
      var c := Decode(message);
      if c.Ignored? || (c.Scored? && c.Score == 0) then {} else Hit(c.RevID, site)
    }

    /** The queued edit for a revision id on a site, and its author. */
    function Hit(revid: int, site: WikiSite): set<object>
      reads Queue
    {
      if (revid, site) in Queue.Edits then {Queue.Edits[(revid, site)], Queue.Edits[(revid, site)].User} else {}
    }

    constructor (irc: Network, queue: EditQueue, htmlEncode: string -> string, percentEncode: string -> string, cfg: Config)
      ensures Irc == irc && Queue == queue && HtmlEncode == htmlEncode && PercentEncode == percentEncode
      ensures !JoinedMain && Shown == []
      ensures UnparsedGood == [] && UnparsedRoll == [] && UnparsedSusp == [] && UnparsedScores == []
      ensures Site2Channel == SiteTable(cfg.Projects, cfg.HANMask)
      ensures Ch2Site == ChannelTable(map[], cfg.Projects, cfg.HANMask)
      ensures Valid() && Bounded(cfg.CacheHAN)
    {
      Irc := irc;
      Queue := queue;
      HtmlEncode := htmlEncode;
      PercentEncode := percentEncode;
      Site2Channel := map[];
      Ch2Site := map[];
      UnparsedGood := [];
      UnparsedRoll := [];
      UnparsedSusp := [];
      UnparsedScores := [];
      JoinedMain := false;
      Shown := [];
      new;
      GetChannel(cfg);
    }

    /** `GetChannel`: `Site2Channel` is rebuilt from scratch; `Ch2Site` only
        gains or overwrites entries. */
    method GetChannel(cfg: Config)
      modifies this
      ensures Site2Channel == SiteTable(cfg.Projects, cfg.HANMask)
      ensures Ch2Site == ChannelTable(old(Ch2Site), cfg.Projects, cfg.HANMask)
      ensures ListsUnchanged() && JoinedMain == old(JoinedMain) && Shown == old(Shown)
    {
      var projects := cfg.Projects;
      Site2Channel := map[];
      var i := 0;
      while i < |projects|
        invariant 0 <= i <= |projects|
        invariant Site2Channel == SiteTable(projects[..i], cfg.HANMask)
        invariant Ch2Site == ChannelTable(old(Ch2Site), projects[..i], cfg.HANMask)
        invariant ListsUnchanged() && JoinedMain == old(JoinedMain) && Shown == old(Shown)
      {
        var ch := projects[i];
        var name := ChannelName(ch, cfg.HANMask);
        assert projects[..i + 1][..i] == projects[..i];
        Ch2Site := Ch2Site[name := ch];
        Site2Channel := Site2Channel[ch := name];
        i := i + 1;
      }
      assert projects[..i] == projects;
    }

    /** `Good`, `Rollback` and `SuspiciousWikiEdit`: one command line to the
        edit's site channel, or an exception and nothing sent. */
    method Report(verb: string, edit: WikiEdit?) returns (r: Outcome)
      requires verb in ["GOOD", "ROLLBACK", "SUSPICIOUS"]
      modifies Irc
      ensures edit == null ==> r == NullPointer
      ensures edit != null && edit.Site !in Site2Channel ==> r == NoChannel
      ensures r != Sent ==> Irc.Calls == old(Irc.Calls)
      ensures edit != null && edit.Site in Site2Channel ==>
        r == Sent && Irc.Calls == old(Irc.Calls) + [Send(CommandLine(verb, edit.RevID), Site2Channel[edit.Site])]
      ensures Irc.Connected == old(Irc.Connected)
    {
      if edit == null {
        return NullPointer;
      }
      if edit.Site !in Site2Channel {
        return NoChannel;
      }
      Irc.SendMessage(CommandLine(verb, edit.RevID), Site2Channel[edit.Site]);
      r := Sent;
    }

    /** `Good`: what is sent reads back as GOOD for the same revision. */
    method Good(edit: WikiEdit?) returns (r: Outcome)
      modifies Irc
      ensures Irc.Connected == old(Irc.Connected)
      ensures r == Sent <==> edit != null && edit.Site in Site2Channel
      ensures r != Sent ==> Irc.Calls == old(Irc.Calls)
      ensures r == Sent ==> Irc.Calls == old(Irc.Calls) + [Send(CommandLine("GOOD", edit.RevID), Site2Channel[edit.Site])]
      ensures r == Sent ==> Decode(CommandLine("GOOD", edit.RevID)) == Command.Good(edit.RevID)
    {
      r := Report("GOOD", edit);
      if r == Sent {
        DecodeCommandLine(edit.RevID);
      }
    }

    /** `Rollback`: what is sent reads back as ROLLBACK for the same revision. */
    method Rollback(edit: WikiEdit?) returns (r: Outcome)
      modifies Irc
      ensures Irc.Connected == old(Irc.Connected)
      ensures r == Sent <==> edit != null && edit.Site in Site2Channel
      ensures r != Sent ==> Irc.Calls == old(Irc.Calls)
      ensures r == Sent ==> Irc.Calls == old(Irc.Calls) + [Send(CommandLine("ROLLBACK", edit.RevID), Site2Channel[edit.Site])]
      ensures r == Sent ==> Decode(CommandLine("ROLLBACK", edit.RevID)) == Command.Rollback(edit.RevID)
    {
      r := Report("ROLLBACK", edit);
      if r == Sent {
        DecodeCommandLine(edit.RevID);
      }
    }

    /** `SuspiciousWikiEdit`: what is sent reads back as SUSPICIOUS. */
    method SuspiciousWikiEdit(edit: WikiEdit?) returns (r: Outcome)
      modifies Irc
      ensures Irc.Connected == old(Irc.Connected)
      ensures r == Sent <==> edit != null && edit.Site in Site2Channel
      ensures r != Sent ==> Irc.Calls == old(Irc.Calls)
      ensures r == Sent ==> Irc.Calls == old(Irc.Calls) + [Send(CommandLine("SUSPICIOUS", edit.RevID), Site2Channel[edit.Site])]
      ensures r == Sent ==> Decode(CommandLine("SUSPICIOUS", edit.RevID)) == Suspicious(edit.RevID)
    {
      r := Report("SUSPICIOUS", edit);
      if r == Sent {
        DecodeCommandLine(edit.RevID);
      }
    }

    /** `WarningSent`: the level and the percent-encoded user name go to the
        user's site channel; peers that receive it ignore it. */
    method WarningSent(user: WikiUser?, level: int) returns (r: Outcome)
      requires 0 <= level < 256
      modifies Irc
      ensures Irc.Connected == old(Irc.Connected)
      ensures user == null ==> r == NullPointer
      ensures user != null && user.Site !in Site2Channel ==> r == NoChannel
      ensures r != Sent ==> Irc.Calls == old(Irc.Calls)
      ensures user != null && user.Site in Site2Channel ==>
        r == Sent
        && Irc.Calls == old(Irc.Calls) + [Send(WarnLine(level, PercentEncode(user.Username)), Site2Channel[user.Site])]
        && Decode(WarnLine(level, PercentEncode(user.Username))) == Ignored
    {
      if user == null {
        return NullPointer;
      }
      if user.Site !in Site2Channel {
        return NoChannel;
      }
      var line := WarnLine(level, PercentEncode(user.Username));
      Irc.SendMessage(line, Site2Channel[user.Site]);
      WarnLineIgnored(level, PercentEncode(user.Username));
      r := Sent;
    }

    /** Replaces pending list `k`. */
    method SetUnparsed(k: Kind, list: seq<HanItem>)
      modifies this
      ensures ListsAfter(k, list)
      ensures SessionUnchanged() && Shown == old(Shown)
    {
      match k
      case GoodKind => UnparsedGood := list;
      case RollbackKind => UnparsedRoll := list;
      case SuspiciousKind => UnparsedSusp := list;
      case ScoredKind => UnparsedScores := list;
    }

    /** Adds a peer's score to an edit; the label keeps the first one. */
    method MergeScore(e: WikiEdit, score: int)
      modifies e
      ensures EditAfter(e, old(e.Score) + score, WithScoreLabel(old(e.MetaLabels), score), old(e.User.BadnessScore))
    {
      e.Score := e.Score + score;
      if BotScore !in e.MetaLabels {
        e.MetaLabels := e.MetaLabels[BotScore := IntToString(score)];
      }
    }

    method ProcessGood(e: WikiEdit, peer: string)
      modifies this, Queue, e.User
      ensures GoodDone(e, peer)
      ensures ListsUnchanged() && SessionUnchanged()
    {
      e.User.BadnessScore := e.User.BadnessScore - 200;
      Shown := Shown + [Notice(UserMessage, SawGood(peer, e))];
      Queue.Request(DeleteByRevID(e.RevID, e.Site));
    }

    method ProcessRollback(e: WikiEdit, peer: string, cfg: Config)
      modifies this, Queue, e.User
      ensures RollbackDone(e, peer, cfg.DeleteEditsAfterRevert)
      ensures ListsUnchanged() && SessionUnchanged()
    {
      Shown := Shown + [Notice(UserMessage, DidRollback(peer, e))];
      e.User.BadnessScore := e.User.BadnessScore + 200;
      if cfg.DeleteEditsAfterRevert {
        Queue.Request(DeleteOlder(e));
      }
      Queue.Request(DeleteByRevID(e.RevID, e.Site));
    }

    method ProcessSusp(e: WikiEdit, peer: string)
      modifies this, Queue, e
      ensures SuspDone(e, peer)
      ensures ListsUnchanged() && SessionUnchanged()
    {
      Shown := Shown + [Notice(UserMessage, ThinksSuspicious(peer, e))];
      e.Score := e.Score + 600;
      Queue.Request(SortItemByEdit(e));
    }

    method Process(k: Kind, e: WikiEdit, peer: string, cfg: Config)
      requires k != ScoredKind
      modifies this, Queue, e, e.User
      ensures Processed(k, e, peer, cfg)
      ensures ListsUnchanged() && SessionUnchanged()
    {
      match k
      case GoodKind => ProcessGood(e, peer);
      case RollbackKind => ProcessRollback(e, peer, cfg);
      case SuspiciousKind => ProcessSusp(e, peer);
    }

    /** The objects a lookup result names: the edit and its author. */
    static function EditObjects(found: Option<WikiEdit>): set<object>
    {
      if found.Some? then {found.value, found.value.User} else {}
    }

    /** `GetWikiEditByRevID` for the revision id a command line names. */
    function Lookup(site: WikiSite, message: string): Option<WikiEdit>
      reads Queue
    {
      Queue.GetWikiEditByRevID(RevIDOf(Decode(message)), site)
    }

    /** Nothing but the edit's own fields may have changed: the report was
        neither applied nor kept. */
    twostate predicate Dropped()
      reads this, Queue
    {
      ListsUnchanged() && Effects([], [])
    }

    /** A GOOD, ROLLBACK or SUSPICIOUS report for `revid`, given what the
        queue held for it: applied at once to that edit, or else kept last in
        its pending list after the list is trimmed to the cache size. */
    twostate predicate Reported(k: Kind, found: Option<WikiEdit>, site: WikiSite, revid: int, nick: string, cfg: Config)
      reads this, Queue, EditObjects(found)
    {
      match found
      case Some(e) => ListsUnchanged() && Processed(k, e, nick, cfg)
      case None => ListsAfter(k, Recorded(old(Unparsed(k)), cfg.CacheHAN, GenericItem(site, revid, nick))) && Effects([], [])
    }

    /** A SCORED report with a non-zero score: merged at once into the edit
        and the queue asked to re-sort it, or else kept last in
        `UnparsedScores`. */
    twostate predicate ScoreReported(found: Option<WikiEdit>, site: WikiSite, revid: int, score: int, nick: string, cfg: Config)
      reads this, Queue, EditObjects(found)
    {
      match found
      case Some(e) => ListsUnchanged() && ScoreMerged(e, nick, score, [SortItemByEdit(e)])
      case None => ListsAfter(ScoredKind, Recorded(old(UnparsedScores), cfg.CacheHAN, RescoreItem(site, revid, score, nick))) && Effects([], [])
    }

    /** What `ProcessCommand` does with a line, given what the queue held for
        the revision id it names. */
    twostate predicate CommandHandled(found: Option<WikiEdit>, site: WikiSite, nick: string, message: string, cfg: Config)
      reads this, Queue, EditObjects(found)
    {
      match Decode(message)
      case Good(r) => Reported(GoodKind, found, site, r, nick, cfg)
      case Rollback(r) => Reported(RollbackKind, found, site, r, nick, cfg)
      case Suspicious(r) => Reported(SuspiciousKind, found, site, r, nick, cfg)
      case Scored(r, s) => if s == 0 then Dropped() else ScoreReported(found, site, r, s, nick, cfg)
      case Ignored => Dropped()
    }

    method Correlate(k: Kind, site: WikiSite, revid: int, nick: string, cfg: Config)
      requires k != ScoredKind
      modifies this, Queue, Hit(revid, site)
      ensures Reported(k, old(Queue.GetWikiEditByRevID(revid, site)), site, revid, nick, cfg)
      ensures old(Valid()) ==> Valid()
      ensures old(Bounded(cfg.CacheHAN)) ==> Bounded(cfg.CacheHAN)
      ensures SessionUnchanged()
    {
      var found := Queue.GetWikiEditByRevID(revid, site);
      if found.Some? {
        Process(k, found.value, nick, cfg);
      } else {
        var list := Trim(Unparsed(k), cfg.CacheHAN);
        SetUnparsed(k, list + [GenericItem(site, revid, nick)]);
      }
    }

    /** The SCORED branch of `ProcessCommand` for a non-zero score. */
    method ScoreReport(site: WikiSite, revid: int, score: int, nick: string, cfg: Config)
      modifies this, Queue, Hit(revid, site)
      ensures ScoreReported(old(Queue.GetWikiEditByRevID(revid, site)), site, revid, score, nick, cfg)
      ensures old(Valid()) ==> Valid()
      ensures old(Bounded(cfg.CacheHAN)) ==> Bounded(cfg.CacheHAN)
      ensures SessionUnchanged()
    {
      var found := Queue.GetWikiEditByRevID(revid, site);
      if found.Some? {
        var e := found.value;
        Shown := Shown + [Notice(PeerType(nick), Rescored(nick, e, score))];
        MergeScore(e, score);
        Queue.Request(SortItemByEdit(e));
      } else {
        var list := Trim(UnparsedScores, cfg.CacheHAN);
        SetUnparsed(ScoredKind, list + [RescoreItem(site, revid, score, nick)]);
      }
    }

    /** `ProcessCommand`: a line from `site` is cut into verb, revision id
        and parameter and acted on; unknown verbs are dropped. */
    method ProcessCommand(site: WikiSite, nick: string, message: string, cfg: Config)
      requires Valid()
      modifies this, Queue, Touched(site, message)
      ensures CommandHandled(old(Lookup(site, message)), site, nick, message, cfg)
      ensures Valid() && SessionUnchanged()
      ensures old(Bounded(cfg.CacheHAN)) ==> Bounded(cfg.CacheHAN)
    {
      match Decode(message)
      case Good(r) => Correlate(GoodKind, site, r, nick, cfg);
      case Rollback(r) => Correlate(RollbackKind, site, r, nick, cfg);
      case Suspicious(r) => Correlate(SuspiciousKind, site, r, nick, cfg);
      case Scored(r, s) =>
        if s != 0 {
          ScoreReport(site, r, s, nick, cfg);
        }
      case Ignored =>
    }

    /** Some entry of list `k` names revision `revid`. */
    function HasMatch(k: Kind, revid: int): bool
      reads this
    {
      FirstMatch(Unparsed(k), revid) < |Unparsed(k)|
    }

    /** The first entry of list `k` for the edit's revision was removed,
        and that one only, and the peer it came from is credited with it. */
    twostate predicate ClaimedFrom(k: Kind, edit: WikiEdit, cfg: Config)
      reads this, Queue, edit, edit.User
    {
      var list := old(Unparsed(k));
      var i := FirstMatch(list, edit.RevID);
      i < |list| && ListsAfter(k, RemoveAt(list, i)) && Processed(k, edit, list[i].User, cfg)
    }

    twostate predicate EditUnchanged(edit: WikiEdit)
      reads edit, edit.User
    {
      EditAfter(edit, old(edit.Score), old(edit.MetaLabels), old(edit.User.BadnessScore))
    }

    /** One of the scans of `IsParsed`: the first entry of list `k` for the
        edit's revision, if any, is processed and removed. */
    method Claim(k: Kind, edit: WikiEdit, cfg: Config) returns (parsed: bool)
      requires k != ScoredKind
      modifies this, Queue, edit, edit.User
      ensures parsed == old(HasMatch(k, edit.RevID))
      ensures parsed ==> ClaimedFrom(k, edit, cfg)
      ensures !parsed ==> Dropped() && EditUnchanged(edit)
      ensures old(Valid()) ==> Valid()
      ensures old(Bounded(cfg.CacheHAN)) ==> Bounded(cfg.CacheHAN)
      ensures SessionUnchanged()
    {
      var list := Unparsed(k);
      var item := FindRevID(list, edit.RevID);
      parsed := item < |list|;
      if parsed {
        Process(k, edit, list[item].User, cfg);
        SetUnparsed(k, RemoveAt(list, item));
      }
    }

    /** `IsParsed`: the pending rollbacks are searched first, then the
        suspicious reports, then the good ones; the first entry found for the
        edit's revision (on any site) is applied and removed, and the search
        stops there. */
    method IsParsed(edit: WikiEdit, cfg: Config) returns (parsed: bool)
      requires Valid()
      modifies this, Queue, edit, edit.User
      ensures parsed <==> old(HasMatch(RollbackKind, edit.RevID) || HasMatch(SuspiciousKind, edit.RevID) || HasMatch(GoodKind, edit.RevID))
      ensures old(HasMatch(RollbackKind, edit.RevID)) ==> ClaimedFrom(RollbackKind, edit, cfg)
      ensures old(!HasMatch(RollbackKind, edit.RevID) && HasMatch(SuspiciousKind, edit.RevID)) ==> ClaimedFrom(SuspiciousKind, edit, cfg)
      ensures old(!HasMatch(RollbackKind, edit.RevID) && !HasMatch(SuspiciousKind, edit.RevID) && HasMatch(GoodKind, edit.RevID)) ==> ClaimedFrom(GoodKind, edit, cfg)
      ensures !parsed ==> Dropped() && EditUnchanged(edit)
      ensures Valid() && SessionUnchanged()
      ensures old(Bounded(cfg.CacheHAN)) ==> Bounded(cfg.CacheHAN)
    {
      parsed := Claim(RollbackKind, edit, cfg);
      if parsed {
        return;
      }
      parsed := Claim(SuspiciousKind, edit, cfg);
      if parsed {
        return;
      }
      parsed := Claim(GoodKind, edit, cfg);
    }

    /** `Rescore`: the first pending score for the edit's revision, if any,
        is removed and merged into the edit; the queue is not re-sorted. */
    method Rescore(edit: WikiEdit, cfg: Config)
      requires Valid()
      modifies this, edit
      ensures !old(HasMatch(ScoredKind, edit.RevID)) ==> Dropped() && EditUnchanged(edit)
      ensures old(HasMatch(ScoredKind, edit.RevID)) ==>
        var list := old(UnparsedScores);
        var i := FirstMatch(list, edit.RevID);
        ListsAfter(ScoredKind, RemoveAt(list, i)) && ScoreMerged(edit, list[i].User, list[i].Score, [])
      ensures Valid() && SessionUnchanged()
      ensures old(Bounded(cfg.CacheHAN)) ==> Bounded(cfg.CacheHAN)
    {
      if |UnparsedScores| == 0 {
        return;
      }
      var list := UnparsedScores;
      var item := FindRevID(list, edit.RevID);
      if item < |list| {
        var score := list[item];
        SetUnparsed(ScoredKind, RemoveAt(list, item));
        Shown := Shown + [Notice(PeerType(score.User), Rescored(score.User, edit, score.Score))];
        MergeScore(edit, score.Score);
      }
    }

    /** `SendMessage(text)`: typed text goes to the current project's
        channel and is echoed in the window. Looking the channel up with the
        hash's `operator[]` adds an empty entry when the project has none, and
        the text is then sent to the empty channel name. */
    method SendMessage(text: string, cfg: Config)
      modifies this, Irc
      ensures text == "" || !old(Irc.Connected) ==>
        Site2Channel == old(Site2Channel) && Irc.Calls == old(Irc.Calls) && Shown == old(Shown)
      ensures text != "" && old(Irc.Connected) ==>
        var channel := if cfg.Project in old(Site2Channel) then old(Site2Channel)[cfg.Project] else "";
        Site2Channel == old(Site2Channel)[cfg.Project := channel]
        && Irc.Calls == old(Irc.Calls) + [Send(text, channel)]
        && Shown == old(Shown) + [Notice(UserTalkMessage, Chat(cfg.Username + ": " + if cfg.HtmlAllowedInIrc then text else Sanitized(text, HtmlEncode)))]
      ensures ListsUnchanged() && Ch2Site == old(Ch2Site) && JoinedMain == old(JoinedMain)
      ensures Irc.Connected == old(Irc.Connected)
    {
      if text == "" {
        return;
      }
      if Irc.Connected {
        if cfg.Project !in Site2Channel {
          Site2Channel := Site2Channel[cfg.Project := ""];
        }
        Irc.SendMessage(text, Site2Channel[cfg.Project]);
        var shown := text;
        if !cfg.HtmlAllowedInIrc {
          shown := SafeHtml(text, HtmlEncode);
        }
        Shown := Shown + [Notice(UserTalkMessage, Chat(cfg.Username + ": " + shown))];
      }
    }

    /** The site a channel message is for, when the channel is known. */
    function Route(parameters: seq<string>): Option<WikiSite>
      reads this
    {
      if |parameters| >= 1 && parameters[0] in Ch2Site then Some(Ch2Site[parameters[0]]) else None
    }

    /** What a channel message may change: the edit its command names, when
        it is a command on a known channel. */
    function RoutedTouched(parameters: seq<string>, message: string): set<object>
      reads this, Queue
    {
      match Route(parameters)
      case Some(site) => if StartsWith(message, Prefix) then Touched(site, message) else {}
      case None => {}
    }

    /** `OnIRCChannelMessage`: a line to an unknown channel is dropped; a
        line with the marker is a command; any other line is chat, made safe
        unless HTML is allowed. */
    method OnIRCChannelMessage(parameters: seq<string>, nick: string, message: string, cfg: Config)
      requires Valid()
      modifies this, Queue, RoutedTouched(parameters, message)
      ensures old(Route(parameters)).None? ==> Dropped()
      ensures old(Route(parameters)).Some? && StartsWith(message, Prefix) ==>
        CommandHandled(old(Lookup(Route(parameters).value, message)), old(Route(parameters)).value, nick, message, cfg)
      ensures old(Route(parameters)).Some? && !StartsWith(message, Prefix) ==>
        ListsUnchanged()
        && Effects([Notice(UserTalkMessage, Chat(ChatLine(nick, old(Route(parameters)).value,
             if cfg.HtmlAllowedInIrc then message else Sanitized(message, HtmlEncode), cfg.Multiple)))], [])
      ensures Valid() && SessionUnchanged()
      ensures old(Bounded(cfg.CacheHAN)) ==> Bounded(cfg.CacheHAN)
    {
      if |parameters| < 1 {
        return;
      }
      var channel := parameters[0];
      if channel !in Ch2Site {
        return;
      }
      var site := Ch2Site[channel];
      if StartsWith(message, Prefix) {
        ProcessCommand(site, nick, message, cfg);
      } else {
        var text := message;
        if !cfg.HtmlAllowedInIrc {
          text := SafeHtml(message, HtmlEncode);
        }
        Shown := Shown + [Notice(UserTalkMessage, Chat(ChatLine(nick, site, text, cfg.Multiple)))];
      }
    }

    /** `OnIRCChannelCTCP`: a CTCP line to a known channel is a command, with
        no check for the marker. */
    method OnIRCChannelCTCP(parameterLine: string, nick: string, text: string, cfg: Config)
      requires Valid()
      modifies this, Queue, if parameterLine in Ch2Site then Touched(Ch2Site[parameterLine], text) else {}
      ensures parameterLine !in old(Ch2Site) ==> Dropped()
      ensures parameterLine in old(Ch2Site) ==>
        CommandHandled(old(Lookup(Ch2Site[parameterLine], text)), old(Ch2Site[parameterLine]), nick, text, cfg)
      ensures Valid() && SessionUnchanged()
      ensures old(Bounded(cfg.CacheHAN)) ==> Bounded(cfg.CacheHAN)
    {
      if parameterLine !in Ch2Site {
        return;
      }
      ProcessCommand(Ch2Site[parameterLine], nick, text, cfg);
    }

    /** `Connect`: nothing when already connected, in developer mode or when
        logging in to the network is switched off. */
    method Connect(cfg: Config)
      modifies this, Irc
      ensures old(Irc.Connected) || cfg.DeveloperMode || !cfg.VandalNwLogin ==>
        Irc.Calls == old(Irc.Calls) && Shown == old(Shown)
      ensures !old(Irc.Connected) && !cfg.DeveloperMode && cfg.VandalNwLogin ==>
        Irc.Calls == old(Irc.Calls) + [Open] && Shown == old(Shown) + [Notice(InfoMessage, Connecting)]
      ensures ListsUnchanged() && SessionUnchanged() && Irc.Connected == old(Irc.Connected)
    {
      if Irc.Connected {
        return;
      }
      if cfg.DeveloperMode || !cfg.VandalNwLogin {
        return;
      }
      Shown := Shown + [Notice(InfoMessage, Connecting)];
      Irc.Connect();
    }

    /** `Disconnect`: the main channel is no longer joined. */
    method Disconnect()
      modifies this, Irc
      ensures !JoinedMain
      ensures Irc.Calls == old(Irc.Calls) + [Close]
      ensures Shown == old(Shown) + [Notice(InfoMessage, Disconnected)]
      ensures ListsUnchanged() && Site2Channel == old(Site2Channel) && Ch2Site == old(Ch2Site)
    {
      Irc.Disconnect();
      JoinedMain := false;
      Shown := Shown + [Notice(InfoMessage, Disconnected)];
    }

    /** `OnIRCLoggedIn`: the main channel counts as joined, and every site
        channel that starts with '#' is joined, in the hash's own order, which
        the model leaves open (`order`). */
    method OnIRCLoggedIn() returns (ghost order: seq<WikiSite>)
      modifies this, Irc
      ensures JoinedMain
      ensures Shown == old(Shown) + [Notice(InfoMessage, LoggedIn)]
      ensures (forall s :: s in order <==> s in Site2Channel) && |order| == |Site2Channel|
      ensures Irc.Calls == old(Irc.Calls) + JoinLines(order, Site2Channel)
      ensures ListsUnchanged() && Site2Channel == old(Site2Channel) && Ch2Site == old(Ch2Site)
      ensures Irc.Connected == old(Irc.Connected)
    {
      JoinedMain := true;
      Shown := Shown + [Notice(InfoMessage, LoggedIn)];
      var remaining := Site2Channel.Keys;
      order := [];
      while remaining != {}
        invariant remaining <= Site2Channel.Keys
        invariant forall s :: s in order <==> s in Site2Channel && s !in remaining
        invariant |order| + |remaining| == |Site2Channel|
        invariant Irc.Calls == old(Irc.Calls) + JoinLines(order, Site2Channel)
        invariant ListsUnchanged() && Site2Channel == old(Site2Channel) && Ch2Site == old(Ch2Site)
        invariant JoinedMain && Shown == old(Shown) + [Notice(InfoMessage, LoggedIn)]
        invariant Irc.Connected == old(Irc.Connected)
        decreases |remaining|
      {
        var s :| s in remaining;
        var channel := Site2Channel[s];
        if StartsWith(channel, "#") {
          Irc.TransferRaw("JOIN " + channel);
        }
        assert (order + [s])[..|order|] == order;
        order := order + [s];
        remaining := remaining - {s};
      }
    }

    /** `OnIRCNetworkFailure`: the reason is shown, and nothing else changes. */
    method OnIRCNetworkFailure(reason: string)
      modifies this
      ensures Shown == old(Shown) + [Notice(InfoMessage, NetworkFailure(reason))]
      ensures ListsUnchanged() && SessionUnchanged()
    {
      Shown := Shown + [Notice(InfoMessage, NetworkFailure(reason))];
    }

    /** `OnDisconnected`: the loss is shown, and `JoinedMain` is left as it
        was. */
    method OnDisconnected()
      modifies this
      ensures Shown == old(Shown) + [Notice(InfoMessage, LostConnection)]
      ensures ListsUnchanged() && SessionUnchanged()
    {
      Shown := Shown + [Notice(InfoMessage, LostConnection)];
    }
  }

  /** The JOIN lines sent for the sites in `order`: one per site whose
      channel starts with '#'. */
  function JoinLines(order: seq<WikiSite>, table: map<WikiSite, string>): seq<IrcCall>
    requires forall s :: s in order ==> s in table
  {
    if |order| == 0 then []
    else
      var channel := table[order[|order| - 1]];
      JoinLines(order[..|order| - 1], table) + if StartsWith(channel, "#") then [Raw("JOIN " + channel)] else []
  }

  /** A call is among the JOIN lines exactly when it joins the channel of a
      listed site and that channel starts with '#'. */
  lemma {:induction false} JoinLinesExactly(order: seq<WikiSite>, table: map<WikiSite, string>, call: IrcCall)
    requires forall s :: s in order ==> s in table
    ensures call in JoinLines(order, table) <==>
      exists s :: s in order && StartsWith(table[s], "#") && call == Raw("JOIN " + table[s])
  {
    if |order| > 0 {
      var front := order[..|order| - 1];
      var last := order[|order| - 1];
      JoinLinesExactly(front, table, call);
      if exists s :: s in order && StartsWith(table[s], "#") && call == Raw("JOIN " + table[s]) {
        var s :| s in order && StartsWith(table[s], "#") && call == Raw("JOIN " + table[s]);
        if s != last {
          assert s in front;
        }
      }
    }
  }
}
