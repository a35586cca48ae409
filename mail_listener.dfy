/**
 * The listener's processing of unseen mail: search the folder for today's
 * unseen messages from Garmin, walk the fetched messages newest first,
 * flag each one \Seen after reading it, and hand the first link found to
 * the callback, once.
 */
module MailListener {
  import opened Wrappers
  import opened LinkPattern
  import opened LinkExtraction
  import opened Imap

  /** Python's `reversed`. */
  function Reversed<T>(s: seq<T>): seq<T> {
    seq(|s|, k requires 0 <= k < |s| => s[|s| - 1 - k])
  }

  /** What `__extract_garmin_link` yields for each message of `order`. */
  function Links(order: seq<Fetched>): seq<Option<string>> {
    seq(|order|, k requires 0 <= k < |order| => ExtractGarminLink(order[k].message))
  }

  /** The first position at or after `i` that holds a link. */
  function FirstLinkFrom(links: seq<Option<string>>, i: nat): (r: Option<nat>)
    requires i <= |links|
    ensures r.Some? ==> i <= r.value < |links| && links[r.value].Some?
    ensures forall k :: i <= k < (if r.Some? then r.value else |links|) ==> links[k].None?
    decreases |links| - i
  {
    if i == |links| then None
    else if links[i].Some? then Some(i)
    else FirstLinkFrom(links, i + 1)
  }

  /** Position, in `order`, of the first message that yields a link. */
  function FirstWithLink(order: seq<Fetched>): Option<nat> {
    FirstLinkFrom(Links(order), 0)
  }

  /** The messages the loop reads and flags: up to and including the first with a link, else all. */
  function Inspected(order: seq<Fetched>): seq<Fetched> {
    match FirstWithLink(order)
    case Some(k) => order[..k + 1]
    case None => order
  }

  /** The link the loop stops at, if any. */
  function Dispatched(order: seq<Fetched>): Option<string> {
    match FirstWithLink(order)
    case Some(k) => Links(order)[k]
    case None => None
  }

  /** What the loop walks: the FETCH reply for the search hits, newest first. */
  function Pending(entries: seq<Entry>, today: int): seq<Fetched> {
    Reversed(FetchAll(entries, Candidates(entries, today)))
  }

  function UidSet(items: seq<Fetched>): set<Uid> {
    set k | 0 <= k < |items| :: items[k].uid
  }

  function UidsOf(items: seq<Fetched>): seq<Uid> {
    seq(|items|, k requires 0 <= k < |items| => items[k].uid)
  }

  /**
   * The loop stops at the first message with a link: what it reads is a
   * non-empty prefix of the newest-first list (when that list is not empty);
   * the link it dispatches is that last message's, and no earlier message
   * yields one; when nothing yields a link it reads the whole list.
   */
  lemma InspectedStopsAtFirstLink(order: seq<Fetched>)
    ensures Inspected(order) == order[..|Inspected(order)|]
    ensures order != [] ==> 0 < |Inspected(order)|
    ensures forall k :: 0 <= k < |Inspected(order)| - 1 ==> Links(order)[k].None?
    ensures Dispatched(order).Some? ==> Dispatched(order) == Links(order)[|Inspected(order)| - 1]
    ensures Dispatched(order).None? <==> forall k :: 0 <= k < |order| ==> Links(order)[k].None?
    ensures Dispatched(order).None? ==> Inspected(order) == order
  {
  }

  /** Nothing before `i` yields a link, and neither does `i`: the first link lies beyond `i`. */
  lemma PassesOver(order: seq<Fetched>, i: nat)
    requires i < |order| && Links(order)[i].None?
    requires FirstWithLink(order) == FirstLinkFrom(Links(order), i)
    ensures FirstWithLink(order) == FirstLinkFrom(Links(order), i + 1)
  {
  }

  /** Nothing before `i` yields a link and `i` does: the loop has read `order[..i + 1]` and dispatches that link. */
  lemma StopsAt(order: seq<Fetched>, i: nat)
    requires i < |order| && Links(order)[i].Some?
    requires FirstWithLink(order) == FirstLinkFrom(Links(order), i)
    ensures Inspected(order) == order[..i + 1]
    ensures Dispatched(order) == Links(order)[i]
  {
  }

  /** Nothing yields a link: the loop has read all of `order` and dispatches nothing. */
  lemma {:induction false} RunsOut(order: seq<Fetched>)
    requires FirstWithLink(order) == FirstLinkFrom(Links(order), |order|)
    ensures Inspected(order) == order[..|order|]
    ensures Dispatched(order) == None
  {
    assert order[..|order|] == order;
  }

  /** Flagging one more message read is flagging the longer prefix at once. */
  lemma FlagOneMore(entries: seq<Entry>, order: seq<Fetched>, i: nat)
    requires i < |order|
    ensures MarkedSeen(MarkedSeen(entries, UidSet(order[..i])), {order[i].uid})
      == MarkedSeen(entries, UidSet(order[..i + 1]))
  {
    assert UidSet(order[..i + 1]) == UidSet(order[..i]) + {order[i].uid} by {
      assert forall k :: 0 <= k < i ==> order[..i + 1][k] == order[..i][k];
    }
    MarkedSeenOneMore(entries, UidSet(order[..i]), order[i].uid);
  }

  /** The search reply is stored in the folder, and fetched item by item, newest first. */
  lemma PendingItems(entries: seq<Entry>, today: int)
    ensures |Pending(entries, today)| == |Candidates(entries, today)|
    ensures forall k :: 0 <= k < |Candidates(entries, today)| ==>
      var u := Candidates(entries, today)[|Candidates(entries, today)| - 1 - k];
      Lookup(entries, u).Some? && Pending(entries, today)[k] == Fetched(u, Lookup(entries, u).value.message)
  {
    var cands := Candidates(entries, today);
    CandidatesStored(entries, today);
    FetchAllStored(entries, cands);
    var fetched := FetchAll(entries, cands);
    forall k | 0 <= k < |cands|
      ensures Pending(entries, today)[k] == fetched[|cands| - 1 - k]
    {
    }
  }

  /** The newest-first list carries the reversed search reply, so its uids decrease. */
  lemma PendingIsNewestFirst(entries: seq<Entry>, today: int)
    requires UidsAscending(entries)
    ensures UidsOf(Pending(entries, today)) == Reversed(Candidates(entries, today))
    ensures forall j, k :: 0 <= j < k < |Pending(entries, today)| ==>
      Pending(entries, today)[j].uid > Pending(entries, today)[k].uid
  {
    PendingItems(entries, today);
    CandidatesIncreasing(entries, today);
  }

  /** Every item of the newest-first list is a qualifying message of the folder. */
  lemma PendingAreQualifying(entries: seq<Entry>, today: int, k: nat)
    requires UidsAscending(entries) && k < |Pending(entries, today)|
    ensures exists i :: (0 <= i < |entries| && Qualifies(entries[i], today) &&
      Pending(entries, today)[k] == Fetched(entries[i].uid, entries[i].message))
  {
    var cands := Candidates(entries, today);
    PendingItems(entries, today);
    CandidatesExact(entries, today);
    var u := cands[|cands| - 1 - k];
    assert u in cands;
    var i :| 0 <= i < |entries| && entries[i].uid == u && Qualifies(entries[i], today);
    LookupFinds(entries, i);
  }

  /** Every qualifying message of the folder is in the newest-first list. */
  lemma QualifyingArePending(entries: seq<Entry>, today: int, i: nat)
    requires UidsAscending(entries) && i < |entries| && Qualifies(entries[i], today)
    ensures Fetched(entries[i].uid, entries[i].message) in Pending(entries, today)
  {
    var cands := Candidates(entries, today);
    PendingItems(entries, today);
    CandidatesExact(entries, today);
    var u := entries[i].uid;
    assert u in cands;
    var j :| 0 <= j < |cands| && cands[j] == u;
    LookupFinds(entries, i);
    assert Pending(entries, today)[|cands| - 1 - j] == Fetched(u, entries[i].message);
  }

  /**
   * The flags after one pass: a message is flagged only if it was a search
   * hit the loop read; messages outside the search are left exactly as they
   * were, and hits older than where the loop stopped stay unseen.
   */
  lemma FlaggedOnlyInspected(entries: seq<Entry>, today: int, i: nat)
    requires UidsAscending(entries) && i < |entries|
    ensures |MarkedSeen(entries, UidSet(Inspected(Pending(entries, today))))| == |entries|
    ensures !Qualifies(entries[i], today) ==>
      MarkedSeen(entries, UidSet(Inspected(Pending(entries, today))))[i] == entries[i]
    ensures Qualifies(entries[i], today) ==>
      (MarkedSeen(entries, UidSet(Inspected(Pending(entries, today))))[i].seen <==>
       entries[i].uid in UidSet(Inspected(Pending(entries, today))))
    ensures MarkedSeen(entries, UidSet(Inspected(Pending(entries, today))))[i]
      == entries[i].(seen := MarkedSeen(entries, UidSet(Inspected(Pending(entries, today))))[i].seen)
  {
    var pending := Pending(entries, today);
    var inspected := Inspected(pending);
    InspectedStopsAtFirstLink(pending);
    if entries[i].uid in UidSet(inspected) {
      var k :| 0 <= k < |inspected| && inspected[k].uid == entries[i].uid;
      assert inspected[k] == pending[k];
      PendingAreQualifying(entries, today, k);
      var j :| 0 <= j < |entries| && Qualifies(entries[j], today) &&
        pending[k] == Fetched(entries[j].uid, entries[j].message);
    }
  }

  /** The uids the loop reads are the first uids of the list it walks. */
  lemma InspectedUidsArePrefix(order: seq<Fetched>)
    ensures |Inspected(order)| <= |order|
    ensures UidsOf(Inspected(order)) == UidsOf(order)[..|Inspected(order)|]
  {
    var inspected := Inspected(order);
    InspectedStopsAtFirstLink(order);
    forall k | 0 <= k < |inspected| ensures UidsOf(inspected)[k] == UidsOf(order)[k] {
      assert inspected[k] == order[k];
    }
  }

  /** The uids flagged in one pass are the first ones of the reversed search reply. */
  lemma FlaggedIsNewestFirstPrefix(entries: seq<Entry>, today: int)
    requires UidsAscending(entries)
    ensures |Inspected(Pending(entries, today))| <= |Candidates(entries, today)|
    ensures UidsOf(Inspected(Pending(entries, today))) ==
      Reversed(Candidates(entries, today))[..|Inspected(Pending(entries, today))|]
  {
    InspectedUidsArePrefix(Pending(entries, today));
    PendingIsNewestFirst(entries, today);
  }

  /** The From header of the scenario below; the search key matches it inside the angle brackets. */
  const GarminFrom: string := "Garmin <" + GarminSender + ">"

  /** An unseen LiveTrack notification with uid 7, received on day `today`. */
  function LiveTrackMail(today: int): Entry {
    Entry(7, GarminFrom, today, false, Single(HtmlType, AnchorHtml))
  }

  /** The FROM key matches a From header that wraps the address in a display name. */
  lemma LiveTrackMailQualifies(today: int)
    ensures Qualifies(LiveTrackMail(today), today)
  {
    assert forall k :: 0 <= k < |GarminSender| ==> GarminFrom[8 + k] == GarminSender[k];
    assert OccursIgnoringCaseAt(GarminFrom, GarminSender, 8);
  }

  /** With that mail alone in the folder, the loop walks exactly that mail. */
  lemma LiveTrackMailPending(today: int)
    ensures Pending([LiveTrackMail(today)], today) == [Fetched(7, Single(HtmlType, AnchorHtml))]
  {
    var folder := [LiveTrackMail(today)];
    LiveTrackMailQualifies(today);
    assert Candidates(folder, today) == [7];
    assert FetchAll(folder, [7]) == [Fetched(7, Single(HtmlType, AnchorHtml))];
  }

  /**
   * One unseen message from Garmin, received today, whose HTML holds a
   * LiveTrack link: a pass dispatches exactly that link and flags the
   * message \Seen.
   */
  lemma OneLiveTrackMail(today: int)
    ensures Dispatched(Pending([LiveTrackMail(today)], today)) == Some(AnchorLink)
    ensures MarkedSeen([LiveTrackMail(today)], UidSet(Inspected(Pending([LiveTrackMail(today)], today))))
      == [LiveTrackMail(today).(seen := true)]
  {
    // Only the extracted link matters here, not how extraction finds it.
    hide ExtractGarminLink;
    var order := Pending([LiveTrackMail(today)], today);
    LiveTrackMailPending(today);
    AnchorLinkExtracted();
    assert Links(order) == [Some(AnchorLink)];
    assert FirstWithLink(order) == Some(0);
    assert Inspected(order) == order;
    assert UidSet(order) == {7};
  }

  /** `GarminLinkListener`, reduced to what a pass over unseen mail touches. */
  class GarminLinkListener {
    /** Whether a callback was registered. */
    const hasCallback: bool
    /** The links the callback has been invoked with, in order. */
    var delivered: seq<string>

    constructor (hasCallback: bool)
      ensures this.hasCallback == hasCallback && delivered == []
    {
      this.hasCallback := hasCallback;
      delivered := [];
    }

    /**
     * The search of `__process_unseen_messages` with its retry: each search
     * that raises is followed by another one, until the server answers. The
     * folder is untouched throughout.
     */
    method SearchUntilAnswered(server: Mailbox, today: int) returns (uids: seq<Uid>, ghost searches: nat)
      modifies server
      ensures server.entries == old(server.entries) && server.failuresLeft == 0
      ensures uids == Candidates(server.entries, today)
      ensures searches == old(server.failuresLeft) + 1
    {
      searches := 1;
      var reply := server.Search(today);
      while reply.SearchError?
        invariant server.entries == old(server.entries)
        invariant reply.SearchError? ==> searches + server.failuresLeft == old(server.failuresLeft)
        invariant reply.Found? ==> searches == old(server.failuresLeft) + 1 && server.failuresLeft == 0
        invariant reply.Found? ==> reply.uids == Candidates(server.entries, today)
        decreases server.failuresLeft + (if reply.SearchError? then 1 else 0)
      {
        searches := searches + 1;
        reply := server.Search(today);
      }
      uids := reply.uids;
    }

    /**
     * The loop of `__process_unseen_messages` over the newest-first fetch reply.
     */
    method InspectNewestFirst(server: Mailbox, order: seq<Fetched>)
      requires server.Valid()
      modifies this, server
      ensures server.Valid() && server.failuresLeft == old(server.failuresLeft)
      ensures server.entries == MarkedSeen(old(server.entries), UidSet(Inspected(order)))
      ensures delivered == old(delivered) + (if hasCallback then ToSeq(Dispatched(order)) else [])
    {
      // The loop needs only which messages yield a link, not how extraction finds it.
      hide ExtractGarminLink;
      ghost var folder := server.entries;
      var i := 0;
      while i < |order|
        invariant 0 <= i <= |order|
        invariant server.Valid() && server.failuresLeft == old(server.failuresLeft)
        invariant server.entries == MarkedSeen(folder, UidSet(order[..i]))
        invariant FirstWithLink(order) == FirstLinkFrom(Links(order), i)
        invariant delivered == old(delivered)
      {
        var link := ExtractGarminLink(order[i].message);
        server.AddSeenFlag(order[i].uid);
        FlagOneMore(folder, order, i);
        // A link is never empty, so `if link:` is `link.Some?`.
        if link.Some? {
          if hasCallback {
            delivered := delivered + [link.value];
          }
          StopsAt(order, i);
          break;
        }
        PassesOver(order, i);
        i := i + 1;
      }
      if i == |order| {
        RunsOut(order);
      }
    }

    /**
     * `__process_unseen_messages`. Each search that raises is followed by
     * another one, with the folder untouched, until the server answers. Then
     * every message read is flagged \Seen, in newest-first order, up to and
     * including the first that yields a link, and that link, if any, goes
     * to the callback once.
     */
    method ProcessUnseenMessages(server: Mailbox, today: int) returns (ghost searches: nat)
      requires server.Valid()
      modifies this, server
      ensures server.Valid() && server.failuresLeft == 0
      ensures searches == old(server.failuresLeft) + 1
      ensures server.entries ==
        MarkedSeen(old(server.entries), UidSet(Inspected(Pending(old(server.entries), today))))
      ensures delivered == old(delivered) +
        (if hasCallback then ToSeq(Dispatched(Pending(old(server.entries), today))) else [])
    {
      var uids;
      uids, searches := SearchUntilAnswered(server, today);
      var fetched := server.Fetch(uids);
      var order := Reversed(fetched);
      assert order == Pending(old(server.entries), today);
      InspectNewestFirst(server, order);
    }
  }
}
