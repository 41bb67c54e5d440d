/** The objects the relay works on but does not own: users and edits, whose
    scores it changes in place, and the edit queue of the main window, which
    it asks to drop or re-sort edits. The queue's own behaviour is not part
    of this model; it answers lookups from a map and records each request. */
module Wiki {
  import opened QtString
  import opened Channels
  import opened Wrappers

  /** `WikiUser`: a name on a site and the badness score the relay adjusts. */
  class WikiUser {
    const Username: string
    const Site: WikiSite
    var BadnessScore: int

    constructor (username: string, site: WikiSite, badness: int)
      ensures Username == username && Site == site && BadnessScore == badness
    {
      Username := username;
      Site := site;
      BadnessScore := badness;
    }
  }

  /** `WikiEdit`: the revision, where it was made and by whom, its score and
      its meta labels. */
  class WikiEdit {
    const RevID: int
    const Site: WikiSite
    const User: WikiUser
    const PageName: string
    var Score: int
    var MetaLabels: map<string, string>

    constructor (revid: int, site: WikiSite, user: WikiUser, pageName: string, score: int)
      ensures RevID == revid && Site == site && User == user && PageName == pageName
      ensures Score == score && MetaLabels == map[]
    {
      RevID := revid;
      Site := site;
      User := user;
      PageName := pageName;
      Score := score;
      MetaLabels := map[];
    }
  }

  /** What the relay asks of the queue. */
  datatype QueueRequest =
    | DeleteByRevID(RevID: int, Site: WikiSite)
    | DeleteOlder(Edit: WikiEdit)
    | SortItemByEdit(Edit: WikiEdit)

  /** The main window's edit queue, seen from the relay. */
  class EditQueue {
    var Edits: map<(int, WikiSite), WikiEdit>
    ghost var Requests: seq<QueueRequest>

    constructor (edits: map<(int, WikiSite), WikiEdit>)
      ensures Edits == edits && Requests == []
    {
      Edits := edits;
      Requests := [];
    }

    /** `GetWikiEditByRevID`: the edit with this revision id on this site, if
        the queue holds one. */
    function GetWikiEditByRevID(revid: int, site: WikiSite): (r: Option<WikiEdit>)
      reads this
      ensures r.Some? <==> (revid, site) in Edits
      ensures r.Some? ==> r.value == Edits[(revid, site)]
    {
      if (revid, site) in Edits then Some(Edits[(revid, site)]) else None
    }

    method Request(q: QueueRequest)
      modifies this
      ensures Edits == old(Edits)
      ensures Requests == old(Requests) + [q]
    {
      Requests := Requests + [q];
    }
  }

  /** The label under which the first score a peer reported is kept. */
  const BotScore: string := "Bot score"

  /** `if (!MetaLabels.contains("Bot score")) MetaLabels.insert(...)`. */
  function WithScoreLabel(labels: map<string, string>, score: int): map<string, string>
  {
    if BotScore in labels then labels else labels[BotScore := IntToString(score)]
  }

  /** The labels after a series of score reports merged in order. */
  function LabelsAfter(labels: map<string, string>, scores: seq<int>): map<string, string>
  {
    if |scores| == 0 then labels
    else WithScoreLabel(LabelsAfter(labels, scores[..|scores| - 1]), scores[|scores| - 1])
  }

  /** The total of a list of scores, first to last. */
  function Sum(scores: seq<int>): int
  {
    if |scores| == 0 then 0 else scores[0] + Sum(scores[1..])
  }

  /** Adding a score at the end adds it to the total. */
  lemma {:induction false} SumSnoc(scores: seq<int>, x: int)
    ensures Sum(scores + [x]) == Sum(scores) + x
  {
    if |scores| > 0 {
      assert (scores + [x])[1..] == scores[1..] + [x];
      SumSnoc(scores[1..], x);
    } else {
      assert (scores + [x])[1..] == [];
    }
  }

  /** The score after a series of reports: each one is added. */
  function ScoreAfter(score: int, scores: seq<int>): int
  {
    if |scores| == 0 then score else ScoreAfter(score, scores[..|scores| - 1]) + scores[|scores| - 1]
  }

  lemma {:induction false} ScoreAfterAddsAll(score: int, scores: seq<int>)
    ensures ScoreAfter(score, scores) == score + Sum(scores)
  {
    if |scores| > 0 {
      var front := scores[..|scores| - 1];
      ScoreAfterAddsAll(score, front);
      SumSnoc(front, scores[|scores| - 1]);
      assert front + [scores[|scores| - 1]] == scores;
    }
  }

  /** A label that is already there is never overwritten, and no other label
      is touched. */
  lemma {:induction false} LabelsAfterKeepsExisting(labels: map<string, string>, scores: seq<int>, key: string)
    requires key in labels && (key != BotScore || BotScore in labels)
    ensures key in LabelsAfter(labels, scores) && LabelsAfter(labels, scores)[key] == labels[key]
  {
    if |scores| > 0 {
      LabelsAfterKeepsExisting(labels, scores[..|scores| - 1], key);
    }
  }

  /** First writer wins: starting without a label, the label holds the
      first reported score, whatever follows. */
  lemma {:induction false} LabelsAfterFirstWins(labels: map<string, string>, scores: seq<int>)
    requires |scores| > 0 && BotScore !in labels
    ensures BotScore in LabelsAfter(labels, scores)
    ensures LabelsAfter(labels, scores)[BotScore] == IntToString(scores[0])
  {
    if |scores| > 1 {
      var front := scores[..|scores| - 1];
      LabelsAfterFirstWins(labels, front);
      assert front[0] == scores[0];
    } else {
      assert scores[..0] == [];
    }
  }

  /** Two reports, 10 then 15: the score goes up by 25 and the label reads
      the first one. */
  lemma TenThenFifteen(labels: map<string, string>, score: int)
    requires BotScore !in labels
    ensures ScoreAfter(score, [10, 15]) == score + 25
    ensures LabelsAfter(labels, [10, 15])[BotScore] == IntToString(10)
  {
    ScoreAfterAddsAll(score, [10, 15]);
    assert [10, 15][..1] == [10];
    assert [10][..0] == [];
    LabelsAfterFirstWins(labels, [10, 15]);
  }
}
