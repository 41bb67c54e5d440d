/** `VandalNw::SafeHtml`: chat text is cut at every '<'; a fragment is copied
    as it is only when it opens or closes one of a few harmless tags, and
    every other fragment goes through the HTML encoder. The encoder
    (`Generic::HtmlEncode`) is not part of this model: it is a parameter. */
module Sanitiser {
  import opened QtString

  /** The tag names a peer may use, compared case-sensitively. */
  const AllowedTags: seq<string> := ["b", "big", "font", "i", "s", "u"]

  /** The tag name of a fragment holding a '>': the text from index 1 up to
      the first '>', without a leading '/', cut at the first space. */
  function TagName(piece: string): (tag: string)
    requires '>' in piece
    ensures ' ' !in tag
  {
    CutAtSpace(StripSlash(Mid(piece, 1, IndexOf(piece, '>') - 1)))
  }

  function StripSlash(t: string): string
  {
    if StartsWith(t, "/") then Mid(t, 1, -1) else t
  }

  function CutAtSpace(t: string): (r: string)
    ensures ' ' !in r
  {
    if ' ' in t then Mid(t, 0, IndexOf(t, ' ')) else t
  }

  /** A fragment is copied verbatim when it has a '>' and an allowed tag name. */
  predicate Kept(piece: string)
  {
    '>' in piece && TagName(piece) in AllowedTags
  }

  function Fragment(piece: string, encode: string -> string): string
  {
    if Kept(piece) then piece else encode(piece)
  }

  /** The fragments the loop handles: the parts of the split, each part but
      the first with its '<' put back in front. */
  function Pieces(text: string): seq<string>
  {
    var parts := Split(text, '<');
    [parts[0]] + Reopened(parts[1..])
  }

  function Reopened(parts: seq<string>): seq<string>
  {
    seq(|parts|, i requires 0 <= i < |parts| => "<" + parts[i])
  }

  /** The fragment results, concatenated in order. */
  function Render(pieces: seq<string>, encode: string -> string): string
  {
    if |pieces| == 0 then "" else Fragment(pieces[0], encode) + Render(pieces[1..], encode)
  }

  /** What `SafeHtml` returns for `text`. */
  function Sanitized(text: string, encode: string -> string): string
  {
    Render(Pieces(text), encode)
  }

  lemma {:induction false} RenderSnoc(pieces: seq<string>, piece: string, encode: string -> string)
    ensures Render(pieces + [piece], encode) == Render(pieces, encode) + Fragment(piece, encode)
  {
    if |pieces| > 0 {
      assert (pieces + [piece])[1..] == pieces[1..] + [piece];
      RenderSnoc(pieces[1..], piece, encode);
    } else {
      assert [piece][1..] == [];
    }
  }

  /** The loop of `VandalNw::SafeHtml` over the split parts. */
  method SafeHtml(text: string, encode: string -> string) returns (result: string)
    ensures result == Sanitized(text, encode)
  {
    result := "";
    var parts := Split(text, '<');
    var firstPart := true;
    var i := 0;
    while i < |parts|
      invariant 0 <= i <= |parts|
      invariant firstPart <==> i == 0
      invariant result == Render(Pieces(text)[..i], encode)
    {
      var part := parts[i];
      if firstPart {
        firstPart := false;
      } else {
        part := "<" + part;
      }
      assert part == Pieces(text)[i];
      assert Pieces(text)[..i + 1] == Pieces(text)[..i] + [part];
      RenderSnoc(Pieces(text)[..i], part, encode);
      if '>' !in part {
        result := result + encode(part);
      } else {
        if TagName(part) !in AllowedTags {
          part := encode(part);
        }
        result := result + part;
      }
      i := i + 1;
    }
    assert Pieces(text)[..i] == Pieces(text);
  }

  lemma {:induction false} RenderIdentity(pieces: seq<string>)
    ensures Render(pieces, s => s) == Concat(pieces)
  {
    if |pieces| > 0 {
      RenderIdentity(pieces[1..]);
    }
  }

  function Concat(pieces: seq<string>): string
  {
    if |pieces| == 0 then "" else pieces[0] + Concat(pieces[1..])
  }

  lemma {:induction false} ConcatReopened(parts: seq<string>)
    requires |parts| >= 1
    ensures Concat(Reopened(parts)) == "<" + Join(parts, '<')
  {
    var r := Reopened(parts);
    assert r[0] == "<" + parts[0];
    if |parts| > 1 {
      assert r[1..] == Reopened(parts[1..]);
      ConcatReopened(parts[1..]);
    } else {
      assert r[1..] == [];
    }
  }

  /** Nothing is lost or reordered: with an encoder that changes nothing,
      `SafeHtml` gives back its input. */
  lemma SanitizedLossless(text: string)
    ensures Sanitized(text, s => s) == text
  {
    RenderIdentity(Pieces(text));
    JoinSplit(text, '<');
    ConcatParts(Split(text, '<'));
  }

  /** Putting the '<' back in front of every part but the first and
      concatenating undoes the split. */
  lemma ConcatParts(parts: seq<string>)
    requires |parts| >= 1
    ensures Concat([parts[0]] + Reopened(parts[1..])) == Join(parts, '<')
  {
    var a, rest := parts[0], parts[1..];
    assert parts == [a] + rest;
    ConcatCons(a, Reopened(rest));
    if |rest| > 0 {
      ConcatPartsMore(a, rest);
    } else {
      assert Reopened(rest) == [];
    }
  }

  lemma ConcatPartsMore(a: string, rest: seq<string>)
    requires |rest| >= 1
    ensures a + Concat(Reopened(rest)) == Join([a] + rest, '<')
  {
    var j := Join(rest, '<');
    ConcatReopened(rest);
    JoinCons(a, rest, '<');
    Reassociate(a, "<", j);
  }

  lemma Reassociate(a: string, b: string, c: string)
    ensures a + (b + c) == a + b + c
  {
  }

  lemma ConcatCons(a: string, rest: seq<string>)
    ensures Concat([a] + rest) == a + Concat(rest)
  {
    assert ([a] + rest)[1..] == rest;
  }

  lemma {:induction false} RenderMarkup(pieces: seq<string>, encode: string -> string)
    requires forall s :: '<' !in encode(s)
    ensures '<' in Render(pieces, encode) ==> exists i :: 0 <= i < |pieces| && Kept(pieces[i]) && '<' in pieces[i]
  {
    if |pieces| > 0 {
      RenderMarkup(pieces[1..], encode);
      if '<' in Render(pieces, encode) && '<' !in Fragment(pieces[0], encode) {
        assert '<' in Render(pieces[1..], encode);
        var i :| 0 <= i < |pieces[1..]| && Kept(pieces[1..][i]) && '<' in pieces[1..][i];
        assert pieces[i + 1] == pieces[1..][i];
      }
    }
  }

  /** If the encoder never writes a '<', every '<' in the result belongs to
      a fragment that opens or closes an allowed tag; the first fragment,
      which holds no '<', never contributes one. */
  lemma MarkupOnlyFromAllowedTags(text: string, encode: string -> string)
    requires forall s :: '<' !in encode(s)
    ensures '<' in Sanitized(text, encode) ==>
      exists i :: 1 <= i < |Pieces(text)| && Kept(Pieces(text)[i])
    ensures OpenCount(Sanitized(text, encode)) == KeptCount(Pieces(text)[1..])
  {
    RenderMarkup(Pieces(text), encode);
    assert '<' !in Pieces(text)[0];
    SanitizedOpenCount(text, encode);
  }

  /** The number of '<' in a text. */
  function OpenCount(s: string): nat
  {
    if |s| == 0 then 0 else (if s[0] == '<' then 1 else 0) + OpenCount(s[1..])
  }

  /** The number of fragments kept for having an allowed tag name. */
  function KeptCount(pieces: seq<string>): nat
  {
    if |pieces| == 0 then 0 else (if Kept(pieces[0]) then 1 else 0) + KeptCount(pieces[1..])
  }

  lemma {:induction false} OpenCountAppend(a: string, b: string)
    ensures OpenCount(a + b) == OpenCount(a) + OpenCount(b)
  {
    if |a| > 0 {
      assert (a + b)[1..] == a[1..] + b;
      OpenCountAppend(a[1..], b);
    } else {
      assert a + b == b;
    }
  }

  lemma {:induction false} OpenCountFree(s: string)
    requires '<' !in s
    ensures OpenCount(s) == 0
  {
    if |s| > 0 {
      OpenCountFree(s[1..]);
    }
  }

  /** A reopened part holds exactly one '<', the one put back in front. */
  lemma OpenCountReopened(part: string)
    requires '<' !in part
    ensures OpenCount("<" + part) == 1
  {
    assert ("<" + part)[1..] == part;
    OpenCountFree(part);
  }

  /** Over fragments that each hold one '<', and an encoder that writes none,
      the result holds one '<' per kept fragment. */
  lemma {:induction false} RenderOpenCount(pieces: seq<string>, encode: string -> string)
    requires forall s :: '<' !in encode(s)
    requires forall i :: 0 <= i < |pieces| ==> OpenCount(pieces[i]) == 1
    ensures OpenCount(Render(pieces, encode)) == KeptCount(pieces)
  {
    if |pieces| > 0 {
      RenderOpenCount(pieces[1..], encode);
      OpenCountAppend(Fragment(pieces[0], encode), Render(pieces[1..], encode));
      if !Kept(pieces[0]) {
        OpenCountFree(encode(pieces[0]));
      }
    }
  }

  lemma SanitizedOpenCount(text: string, encode: string -> string)
    requires forall s :: '<' !in encode(s)
    ensures OpenCount(Sanitized(text, encode)) == KeptCount(Pieces(text)[1..])
  {
    var parts := Split(text, '<');
    var rest := Reopened(parts[1..]);
    assert Pieces(text)[1..] == rest;
    RenderCons(parts[0], rest, encode);
    forall i | 0 <= i < |rest|
      ensures OpenCount(rest[i]) == 1
    {
      assert '<' !in parts[1..][i];
      OpenCountReopened(parts[1..][i]);
    }
    RenderOpenCount(rest, encode);
    OpenCountAppend(Fragment(parts[0], encode), Render(rest, encode));
    if Kept(parts[0]) {
      OpenCountFree(parts[0]);
    } else {
      OpenCountFree(encode(parts[0]));
    }
  }

  /** The tag name of `<name attrs>body` or `</name>body` is `name`, where the
      attributes are empty or start with a space. */
  lemma TagNameOfTag(closing: bool, name: string, attrs: string, body: string)
    requires ' ' !in name && '>' !in name && '>' !in attrs
    requires |name| > 0 && name[0] != '/'
    requires attrs == "" || attrs[0] == ' '
    ensures var piece := (if closing then "</" else "<") + name + attrs + ">" + body;
      '>' in piece && TagName(piece) == name
  {
    var slash := if closing then "/" else "";
    var lead := if closing then "</" else "<";
    assert lead == "<" + slash;
    TagNameOfPiece(lead + name + attrs + ">" + body, lead, closing, name, attrs, body);
  }

  lemma TagNameOfPiece(piece: string, lead: string, closing: bool, name: string, attrs: string, body: string)
    requires lead == "<" + (if closing then "/" else "")
    requires piece == lead + name + attrs + ">" + body
    requires ' ' !in name && '>' !in name && '>' !in attrs
    requires |name| > 0 && name[0] != '/'
    requires attrs == "" || attrs[0] == ' '
    ensures '>' in piece && TagName(piece) == name
  {
    var slash := if closing then "/" else "";
    var head := lead + name + attrs;
    assert '>' !in head by {
      assert head == "<" + (slash + (name + attrs));
    }
    HeadOfPiece(head, body);
    assert head[1..] == slash + (name + attrs);
    StripSlashOf(closing, name + attrs);
    CutAtSpaceOf(name, attrs);
  }

  /** The text from index 1 up to the first '>' of `head>body`, for a head
      without '>'. */
  lemma HeadOfPiece(head: string, body: string)
    requires |head| >= 1 && '>' !in head
    ensures var piece := head + ">" + body;
      '>' in piece && Mid(piece, 1, IndexOf(piece, '>') - 1) == head[1..]
  {
    var piece := head + ">" + body;
    assert piece == head + (">" + body);
    IndexOfAfterFree(head, ">" + body, '>');
    assert IndexOf(">" + body, '>') == 0;
    assert piece[1..|head|] == head[1..];
  }

  lemma StripSlashOf(closing: bool, t: string)
    requires |t| > 0 && t[0] != '/'
    ensures StripSlash((if closing then "/" else "") + t) == t
  {
    if closing {
      assert StartsWith("/" + t, "/");
      assert ("/" + t)[1..] == t;
    } else {
      assert "" + t == t;
      assert t[..1] != "/";
    }
  }

  lemma CutAtSpaceOf(name: string, attrs: string)
    requires ' ' !in name
    requires attrs == "" || attrs[0] == ' '
    ensures CutAtSpace(name + attrs) == name
  {
    if attrs == "" {
      assert name + attrs == name;
    } else {
      IndexOfAfterFree(name, attrs, ' ');
      assert IndexOf(attrs, ' ') == 0;
      assert (name + attrs)[..|name|] == name;
    }
  }

  /** A tag fragment is kept exactly when its name is on the allow-list;
      attributes play no part. */
  lemma TagKeptIffAllowed(closing: bool, name: string, attrs: string, body: string)
    requires ' ' !in name && '>' !in name && '>' !in attrs
    requires |name| > 0 && name[0] != '/'
    requires attrs == "" || attrs[0] == ' '
    ensures Kept((if closing then "</" else "<") + name + attrs + ">" + body) <==> name in AllowedTags
  {
    TagNameOfTag(closing, name, attrs, body);
  }

  /** A tag name as a peer writes it: no space, '<' or '>', no leading '/'. */
  predicate PlainName(name: string)
  {
    |name| > 0 && name[0] != '/' && ' ' !in name && '>' !in name && '<' !in name
  }

  /** An allowed tag pair comes out unchanged, attributes and all:
      `<b>hi</b>` and `<b onclick=x>hi</b>` alike. The empty fragment in
      front of the first '<' goes through the encoder, so this needs an
      encoder that maps "" to "". */
  lemma AllowedPairKept(name: string, attrs: string, inner: string, encode: string -> string)
    requires name in AllowedTags
    requires attrs == "" || attrs[0] == ' '
    requires '>' !in attrs && '<' !in attrs && '<' !in inner
    requires encode("") == ""
    ensures var text := ("<" + name + attrs + ">" + inner) + ("</" + name + ">");
      Sanitized(text, encode) == text
  {
    AllowedNamesPlain(name);
    var open, close := "<" + name + attrs + ">" + inner, "</" + name + ">";
    TagPair(name, attrs, inner, encode);
    AllowedFragmentKept(false, name, attrs, inner, encode);
    assert Fragment(open, encode) == open;
    AllowedFragmentKept(true, name, "", "", encode);
    ClosingTag(name);
    assert Fragment(close, encode) == close;
    calc {
      Sanitized(open + close, encode);
      encode("") + Fragment(open, encode) + Fragment(close, encode);
      "" + open + close;
      { assert "" + open == open; }
      open + close;
    }
  }

  lemma AllowedFragmentKept(closing: bool, name: string, attrs: string, body: string, encode: string -> string)
    requires PlainName(name) && name in AllowedTags
    requires attrs == "" || attrs[0] == ' '
    requires '>' !in attrs
    ensures var piece := (if closing then "</" else "<") + name + attrs + ">" + body;
      Fragment(piece, encode) == piece
  {
    TagNameOfTag(closing, name, attrs, body);
  }

  lemma AllowedNamesPlain(name: string)
    requires name in AllowedTags
    ensures PlainName(name)
  {
  }

  /** A tag pair whose name is not allowed is encoded fragment by fragment:
      `<script>x</script>`, and `<B>hi</B>` since names are compared
      case-sensitively. */
  lemma OtherPairEncoded(name: string, attrs: string, inner: string, encode: string -> string)
    requires PlainName(name) && name !in AllowedTags
    requires attrs == "" || attrs[0] == ' '
    requires '>' !in attrs && '<' !in attrs && '<' !in inner
    ensures var open, close := "<" + name + attrs + ">" + inner, "</" + name + ">";
      Sanitized(open + close, encode) == encode("") + encode(open) + encode(close)
  {
    var open, close := "<" + name + attrs + ">" + inner, "</" + name + ">";
    TagPair(name, attrs, inner, encode);
    OtherFragmentEncoded(false, name, attrs, inner, encode);
    assert Fragment(open, encode) == encode(open);
    OtherFragmentEncoded(true, name, "", "", encode);
    ClosingTag(name);
  }

  lemma ClosingTag(name: string)
    ensures "</" + name + "" + ">" + "" == "</" + name + ">"
  {
  }

  lemma OtherFragmentEncoded(closing: bool, name: string, attrs: string, body: string, encode: string -> string)
    requires PlainName(name) && name !in AllowedTags
    requires attrs == "" || attrs[0] == ' '
    requires '>' !in attrs
    ensures var piece := (if closing then "</" else "<") + name + attrs + ">" + body;
      Fragment(piece, encode) == encode(piece)
  {
    TagNameOfTag(closing, name, attrs, body);
  }

  lemma TagPair(name: string, attrs: string, inner: string, encode: string -> string)
    requires PlainName(name)
    requires attrs == "" || attrs[0] == ' '
    requires '>' !in attrs && '<' !in attrs && '<' !in inner
    ensures Sanitized(("<" + name + attrs + ">" + inner) + ("</" + name + ">"), encode)
      == encode("") + Fragment("<" + name + attrs + ">" + inner, encode) + Fragment("</" + name + ">", encode)
  {
    var a := name + attrs + ">" + inner;
    var b := "/" + name + ">";
    assert '<' !in a;
    assert '<' !in b;
    TagPairText(name, attrs, inner);
    SanitizedTagPairShape(a, b, encode);
  }

  lemma TagPairText(name: string, attrs: string, inner: string)
    ensures ("<" + name + attrs + ">" + inner) + ("</" + name + ">")
      == "<" + (name + attrs + ">" + inner) + "<" + ("/" + name + ">")
    ensures "<" + (name + attrs + ">" + inner) == "<" + name + attrs + ">" + inner
    ensures "<" + ("/" + name + ">") == "</" + name + ">"
  {
  }

  /** Text of the form `<a<b`: an empty first fragment and two reopened ones. */
  lemma SanitizedTagPairShape(a: string, b: string, encode: string -> string)
    requires '<' !in a && '<' !in b
    ensures Sanitized("<" + a + "<" + b, encode)
      == encode("") + Fragment("<" + a, encode) + Fragment("<" + b, encode)
  {
    var text := "<" + a + "<" + b;
    SplitOfTwo(a, b);
    var parts := ["", a, b];
    assert parts[1..] == [a, b];
    var reopened := Reopened([a, b]);
    assert reopened == ["<" + a, "<" + b];
    var pieces := ["", "<" + a, "<" + b];
    assert Pieces(text) == [""] + reopened;
    assert Pieces(text) == pieces;
    RenderThree("", "<" + a, "<" + b, encode);
    assert Fragment("", encode) == encode("");
  }

  /** The first fragment gets no '<' in front, yet its tag name is still read
      from index 1: `xb>` passes unencoded whatever the encoder does. */
  lemma FirstFragmentChecked(encode: string -> string)
    ensures Sanitized("xb>", encode) == "xb>"
  {
    SplitFree("xb>", '<');
    assert Pieces("xb>") == ["xb>"];
    assert IndexOf("xb>", '>') == 2 by {
      assert "xb>" == "xb" + ">";
      IndexOfAfterFree("xb", ">", '>');
    }
    assert Mid("xb>", 1, 1) == "b";
    assert StripSlash("b") == "b" by {
      assert "b"[..1] != "/";
    }
    assert TagName("xb>") == "b";
  }

  lemma SplitOfTwo(a: string, b: string)
    requires '<' !in a && '<' !in b
    ensures Split("<" + a + "<" + b, '<') == ["", a, b]
  {
    var text := "<" + a + "<" + b;
    assert text == "" + ['<'] + (a + ['<'] + b);
    SplitFront("", a + ['<'] + b, '<');
    SplitFront(a, b, '<');
    SplitFree(b, '<');
  }

  lemma RenderThree(p0: string, p1: string, p2: string, encode: string -> string)
    ensures Render([p0, p1, p2], encode) == Fragment(p0, encode) + Fragment(p1, encode) + Fragment(p2, encode)
  {
    var f0, f1, f2 := Fragment(p0, encode), Fragment(p1, encode), Fragment(p2, encode);
    RenderCons(p2, [], encode);
    assert [p2] + [] == [p2];
    assert Render([p2], encode) == f2;
    RenderCons(p1, [p2], encode);
    assert [p1] + [p2] == [p1, p2];
    assert Render([p1, p2], encode) == f1 + f2;
    RenderCons(p0, [p1, p2], encode);
    assert [p0] + [p1, p2] == [p0, p1, p2];
    assert f0 + (f1 + f2) == f0 + f1 + f2;
  }

  lemma RenderCons(p: string, rest: seq<string>, encode: string -> string)
    ensures Render([p] + rest, encode) == Fragment(p, encode) + Render(rest, encode)
  {
    assert ([p] + rest)[1..] == rest;
  }

  lemma SplitFree(s: string, c: char)
    requires c !in s
    ensures Split(s, c) == [s]
  {
  }

}
