/** Which IRC channel carries the traffic of which wiki (`VandalNw::GetChannel`).
    The relay keeps two hash tables, site to channel and channel to site;
    this module states what they hold after a rebuild. */
module Channels {
  import opened QtString

  /** A wiki project. The tables key on the object itself, so two sites with
      equal fields are still two sites. */
  class WikiSite {
    const Name: string
    const HANChannel: string
    const IRCChannel: string

    constructor (name: string, hanChannel: string, ircChannel: string)
      ensures Name == name && HANChannel == hanChannel && IRCChannel == ircChannel
    {
      Name := name;
      HANChannel := hanChannel;
      IRCChannel := ircChannel;
    }
  }

  /** The channel of one site: its own `HANChannel` when that is set, else the
      mask with every `$feed` replaced by the site's feed channel and then
      every `$wiki` by its name. */
  function ChannelName(site: WikiSite, mask: string): string
  {
    if site.HANChannel != "" then site.HANChannel
    else ReplaceAll(ReplaceAll(mask, "$feed", site.IRCChannel), "$wiki", site.Name)
  }

  /** `Site2Channel` after a rebuild over `projects`: it is cleared first, so
      it holds exactly the projects, each with its own channel. */
  function SiteTable(projects: seq<WikiSite>, mask: string): (t: map<WikiSite, string>)
    ensures t.Keys == set s | s in projects
    ensures forall s :: s in t ==> t[s] == ChannelName(s, mask)
  {
    if |projects| == 0 then map[]
    else
      var last := projects[|projects| - 1];
      var t := SiteTable(projects[..|projects| - 1], mask);
      t[last := ChannelName(last, mask)]
  }

  /** `Ch2Site` after a rebuild over `projects`: it is not cleared, and each
      project's channel is inserted in list order, a later insert overwriting
      an earlier one. */
  function ChannelTable(earlier: map<string, WikiSite>, projects: seq<WikiSite>, mask: string): map<string, WikiSite>
  {
    if |projects| == 0 then earlier
    else
      var last := projects[|projects| - 1];
      ChannelTable(earlier, projects[..|projects| - 1], mask)[ChannelName(last, mask) := last]
  }

  /** Some project of the list has `channel` as its channel. */
  ghost predicate SomeProjectNamed(projects: seq<WikiSite>, mask: string, channel: string)
  {
    exists i :: 0 <= i < |projects| && ChannelName(projects[i], mask) == channel
  }

  lemma SomeProjectNamedSnoc(projects: seq<WikiSite>, mask: string, channel: string)
    requires |projects| > 0
    ensures SomeProjectNamed(projects, mask, channel) <==>
      SomeProjectNamed(projects[..|projects| - 1], mask, channel) || ChannelName(projects[|projects| - 1], mask) == channel
  {
    var n := |projects| - 1;
    var front := projects[..n];
    if SomeProjectNamed(projects, mask, channel) {
      var i :| 0 <= i < |projects| && ChannelName(projects[i], mask) == channel;
      if i < n {
        assert front[i] == projects[i];
      }
    }
    if SomeProjectNamed(front, mask, channel) {
      var i :| 0 <= i < |front| && ChannelName(front[i], mask) == channel;
      assert projects[i] == front[i];
    }
  }

  /** A channel is known after a rebuild iff it was known before or some
      project maps to it: nothing is ever removed. */
  lemma {:induction false} ChannelTableDomain(earlier: map<string, WikiSite>, projects: seq<WikiSite>, mask: string, channel: string)
    ensures channel in ChannelTable(earlier, projects, mask) <==>
      channel in earlier || SomeProjectNamed(projects, mask, channel)
  {
    if |projects| > 0 {
      ChannelTableDomain(earlier, projects[..|projects| - 1], mask, channel);
      SomeProjectNamedSnoc(projects, mask, channel);
    }
  }

  /** The site a channel maps back to is the LAST project in the list that
      maps to it. */
  lemma {:induction false} ChannelTableLastWins(earlier: map<string, WikiSite>, projects: seq<WikiSite>, mask: string, i: nat)
    requires i < |projects|
    requires forall j :: i < j < |projects| ==> ChannelName(projects[j], mask) != ChannelName(projects[i], mask)
    ensures ChannelName(projects[i], mask) in ChannelTable(earlier, projects, mask)
    ensures ChannelTable(earlier, projects, mask)[ChannelName(projects[i], mask)] == projects[i]
  {
    var n := |projects| - 1;
    if i < n {
      var front := projects[..n];
      assert front[i] == projects[i];
      forall j | i < j < |front|
        ensures ChannelName(front[j], mask) != ChannelName(front[i], mask)
      {
        assert front[j] == projects[j];
      }
      ChannelTableLastWins(earlier, front, mask, i);
      assert ChannelName(projects[n], mask) != ChannelName(projects[i], mask);
    }
  }

  /** An entry for a channel that no project maps to any more survives the
      rebuild unchanged. */
  lemma {:induction false} ChannelTableKeepsStale(earlier: map<string, WikiSite>, projects: seq<WikiSite>, mask: string, channel: string)
    requires channel in earlier
    requires forall i :: 0 <= i < |projects| ==> ChannelName(projects[i], mask) != channel
    ensures channel in ChannelTable(earlier, projects, mask)
    ensures ChannelTable(earlier, projects, mask)[channel] == earlier[channel]
  {
    if |projects| > 0 {
      var n := |projects| - 1;
      var front := projects[..n];
      forall i | 0 <= i < |front|
        ensures ChannelName(front[i], mask) != channel
      {
        assert front[i] == projects[i];
      }
      ChannelTableKeepsStale(earlier, front, mask, channel);
    }
  }

  /** Routing back: a project whose channel no later project shares is found
      again from its channel. */
  lemma RoutingRoundTrip(earlier: map<string, WikiSite>, projects: seq<WikiSite>, mask: string, i: nat)
    requires i < |projects|
    requires forall j :: i < j < |projects| ==> ChannelName(projects[j], mask) != ChannelName(projects[i], mask)
    ensures SiteTable(projects, mask)[projects[i]] in ChannelTable(earlier, projects, mask)
    ensures ChannelTable(earlier, projects, mask)[SiteTable(projects, mask)[projects[i]]] == projects[i]
  {
    assert projects[i] in projects;
    ChannelTableLastWins(earlier, projects, mask, i);
  }

  /** Two projects on one channel: the later one wins the channel, and the
      earlier one is no longer reachable from it; no error is raised. */
  lemma SharedChannelLaterWins(earlier: map<string, WikiSite>, first: WikiSite, second: WikiSite, mask: string)
    requires first != second
    requires ChannelName(first, mask) == ChannelName(second, mask)
    ensures ChannelTable(earlier, [first, second], mask)[ChannelName(first, mask)] == second
    ensures SiteTable([first, second], mask)[first] == SiteTable([first, second], mask)[second]
  {
    assert [first, second] == [first, second][..1] + [second];
    assert [first, second][..1][..0] == [];
    assert first in [first, second] && second in [first, second];
  }

  /** A mask with one `$feed` and one `$wiki`, and no other '$' anywhere in
      it or in the site's feed channel, is filled in as expected. */
  lemma MaskInstantiation(site: WikiSite, before: string, between: string, after: string)
    requires site.HANChannel == ""
    requires '$' !in before && '$' !in between && '$' !in after && '$' !in site.IRCChannel
    ensures ChannelName(site, before + "$feed" + between + "$wiki" + after)
      == before + site.IRCChannel + between + site.Name + after
  {
    var feed, wiki := "$feed", "$wiki";
    assert feed[0] == '$' && wiki[0] == '$' && |feed| == |wiki| && feed != wiki;
    assert '$' !in wiki[1..];
    FillBoth(before, between, after, feed, wiki, site.IRCChannel, site.Name);
  }

  /** Two passes of `replace` over a text holding each of two patterns of
      the same length once, the patterns sharing only their first character
      with the rest of the text. */
  lemma FillBoth(before: string, between: string, after: string, p: string, q: string, x: string, y: string)
    requires |p| == |q| > 0 && p != q && p[0] == q[0]
    requires p[0] !in before && p[0] !in between && p[0] !in after && p[0] !in x && p[0] !in q[1..]
    ensures ReplaceAll(ReplaceAll(before + p + between + q + after, p, x), q, y) == before + x + between + y + after
  {
    var w := before + x + between;
    FirstPass(before, between, after, p, q, x);
    assert w + q + after == before + x + between + q + after;
    ReplaceMiddle(w, q, after, y);
    ReplaceAllFree(after, q, y);
  }

  /** The `$feed` pass: its one occurrence is replaced and the `$wiki`
      after it is passed over. */
  lemma FirstPass(before: string, between: string, after: string, p: string, q: string, x: string)
    requires |p| == |q| > 0 && p != q && p[0] == q[0]
    requires p[0] !in before && p[0] !in between && p[0] !in after && p[0] !in q[1..]
    ensures ReplaceAll(before + p + between + q + after, p, x) == before + x + between + q + after
  {
    var rest := between + (q + after);
    RestUnchanged(between, q, after, p, x);
    RegroupFive(before, p, between, q, after);
    RegroupFive(before, x, between, q, after);
    ReplaceMiddleOf(before + p + between + q + after, before, p, rest, x);
  }

  lemma RegroupFive(a: string, b: string, c: string, d: string, e: string)
    ensures a + b + c + d + e == a + b + (c + (d + e))
  {
  }

  /** `ReplaceMiddle`, with the concatenation given by name. */
  lemma ReplaceMiddleOf(s: string, before: string, p: string, rest: string, r: string)
    requires |p| > 0 && p[0] !in before
    requires s == before + p + rest
    requires ReplaceAll(rest, p, r) == rest
    ensures ReplaceAll(s, p, r) == before + r + rest
  {
    ReplaceMiddle(before, p, rest, r);
  }

  /** Text between the two placeholders, the second placeholder and what
      follows it: none of it holds the first placeholder. */
  lemma RestUnchanged(between: string, q: string, after: string, p: string, x: string)
    requires |p| == |q| > 0 && p != q && p[0] == q[0]
    requires p[0] !in between && p[0] !in after && p[0] !in q[1..]
    ensures ReplaceAll(between + (q + after), p, x) == between + (q + after)
  {
    ReplaceAllFreePrefix(between, q + after, p, x);
    SkipOther(q, after, p, x);
  }

  /** Another word of the pattern's length that starts like it but differs
      is passed over. */
  lemma SkipOther(q: string, after: string, p: string, r: string)
    requires |q| == |p| > 0 && q != p && q[0] == p[0]
    requires p[0] !in q[1..] && p[0] !in after
    ensures ReplaceAll(q + after, p, r) == q + after
  {
    var s := q + after;
    assert s[..|p|] == q;
    assert s[1..] == q[1..] + after;
    ReplaceAllFree(q[1..] + after, p, r);
  }

  /** The two substitutions run one after the other, so a feed channel that
      itself holds `$wiki` has that replaced by the site name too. */
  lemma FeedTextSubstitutedAgain(site: WikiSite)
    requires site.HANChannel == "" && site.IRCChannel == "$wiki"
    requires '$' !in site.Name
    ensures ChannelName(site, "$feed") == site.Name
  {
    ReplaceAllFront("", "$feed", "$wiki");
    ReplaceAllFront("", "$wiki", site.Name);
    assert "$feed" + "" == "$feed";
    assert "$wiki" + "" == "$wiki";
    assert site.Name + "" == site.Name;
  }
}
