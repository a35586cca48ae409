/**
 * The IMAP server state the listener works against: the messages of the
 * selected folder with their \Seen flags, and the three commands the
 * listener issues on it: UID SEARCH, UID FETCH and UID STORE +FLAGS (\Seen).
 */
module Imap {
  import opened Wrappers
  import opened LinkExtraction

  type Uid = nat

  /**
   * One message of the folder: its uid, its From header, its internal date
   * as a day number (server-local, time of day dropped), its \Seen flag and
   * its parsed content.
   */
  datatype Entry = Entry(uid: Uid, sender: string, arrival: int, seen: bool, message: Message)

  /** One item of a FETCH reply: the uid and the message parsed from its RFC822 body. */
  datatype Fetched = Fetched(uid: Uid, message: Message)

  /** A SEARCH either raises (`IMAP4.abort` or `IMAP4.error`) or answers with the matching uids. */
  datatype SearchReply = SearchError | Found(uids: seq<Uid>)

  const GarminSender: string := "noreply@garmin.com"

  function ToLowerAscii(c: char): char {
    if 'A' <= c <= 'Z' then (c as int + 32) as char else c
  }

  /** `word` occurs in `text` at `i`, ignoring the case of ASCII letters. */
  predicate OccursIgnoringCaseAt(text: string, word: string, i: nat) {
    i + |word| <= |text| &&
    forall k :: 0 <= k < |word| ==> ToLowerAscii(text[i + k]) == ToLowerAscii(word[k])
  }

  /** The FROM search key: the string occurs somewhere in the From header, in any case. */
  predicate ContainsIgnoringCase(text: string, word: string) {
    exists i: nat | i <= |text| :: OccursIgnoringCaseAt(text, word, i)
  }

  /** The search key `UNSEEN SINCE <today> FROM noreply@garmin.com`. */
  predicate Qualifies(e: Entry, today: int) {
    !e.seen && today <= e.arrival && ContainsIgnoringCase(e.sender, GarminSender)
  }

  /** Uids grow strictly in folder order, as unique identifiers do. */
  predicate UidsAscending(entries: seq<Entry>) {
    forall i, j :: 0 <= i < j < |entries| ==> entries[i].uid < entries[j].uid
  }

  predicate Increasing(uids: seq<Uid>) {
    forall i, j :: 0 <= i < j < |uids| ==> uids[i] < uids[j]
  }

  /** The uids a successful SEARCH answers with, in folder order. */
  function Candidates(entries: seq<Entry>, today: int): seq<Uid> {
    if entries == [] then []
    else (if Qualifies(entries[0], today) then [entries[0].uid] else []) + Candidates(entries[1..], today)
  }

  /** The search answers with exactly the uids of the qualifying messages. */
  lemma {:induction false} CandidatesExact(entries: seq<Entry>, today: int)
    ensures forall u :: u in Candidates(entries, today) <==>
      exists i :: 0 <= i < |entries| && entries[i].uid == u && Qualifies(entries[i], today)
  {
    if entries != [] {
      var rest := entries[1..];
      CandidatesExact(rest, today);
      forall u | u in Candidates(entries, today)
        ensures exists i :: 0 <= i < |entries| && entries[i].uid == u && Qualifies(entries[i], today)
      {
        if u !in Candidates(rest, today) {
          assert entries[0].uid == u && Qualifies(entries[0], today);
        } else {
          var j :| 0 <= j < |rest| && rest[j].uid == u && Qualifies(rest[j], today);
          assert entries[j + 1] == rest[j];
        }
      }
      forall u, i | 0 <= i < |entries| && entries[i].uid == u && Qualifies(entries[i], today)
        ensures u in Candidates(entries, today)
      {
        if i > 0 {
          assert rest[i - 1] == entries[i];
        }
      }
    }
  }

  /** The search answers in folder order, so with increasing uids. */
  lemma {:induction false} CandidatesIncreasing(entries: seq<Entry>, today: int)
    requires UidsAscending(entries)
    ensures Increasing(Candidates(entries, today))
  {
    if entries != [] {
      var rest := entries[1..];
      CandidatesIncreasing(rest, today);
      CandidatesExact(rest, today);
      var tail := Candidates(rest, today);
      forall k | 0 <= k < |tail| ensures entries[0].uid < tail[k] {
        assert tail[k] in tail;
        var j :| 0 <= j < |rest| && rest[j].uid == tail[k] && Qualifies(rest[j], today);
        assert rest[j] == entries[j + 1];
      }
    }
  }

  /** The message stored under `uid`, if any. */
  function Lookup(entries: seq<Entry>, uid: Uid): (r: Option<Entry>)
    ensures r.Some? ==> r.value.uid == uid && r.value in entries
    ensures r.None? ==> forall i :: 0 <= i < |entries| ==> entries[i].uid != uid
  {
    if entries == [] then None
    else if entries[0].uid == uid then Some(entries[0])
    else Lookup(entries[1..], uid)
  }

  /** With unique uids, looking up a message's uid finds that message. */
  lemma {:induction false} LookupFinds(entries: seq<Entry>, i: nat)
    requires UidsAscending(entries) && i < |entries|
    ensures Lookup(entries, entries[i].uid) == Some(entries[i])
  {
    if i > 0 {
      LookupFinds(entries[1..], i - 1);
    }
  }

  /** Every uid the search answers with belongs to a stored message. */
  lemma CandidatesStored(entries: seq<Entry>, today: int)
    ensures forall k :: 0 <= k < |Candidates(entries, today)| ==>
      Lookup(entries, Candidates(entries, today)[k]).Some?
  {
    var cands := Candidates(entries, today);
    CandidatesExact(entries, today);
    forall k | 0 <= k < |cands| ensures Lookup(entries, cands[k]).Some? {
      assert cands[k] in cands;
    }
  }

  /** The items of a FETCH reply, in request order; a uid with no message gets no item. */
  function FetchAll(entries: seq<Entry>, uids: seq<Uid>): seq<Fetched> {
    if uids == [] then []
    else
      match Lookup(entries, uids[0])
      case Some(e) => [Fetched(uids[0], e.message)] + FetchAll(entries, uids[1..])
      case None => FetchAll(entries, uids[1..])
  }

  /** When every requested uid is stored, the reply has one item per uid, in order. */
  lemma {:induction false} FetchAllStored(entries: seq<Entry>, uids: seq<Uid>)
    requires forall k :: 0 <= k < |uids| ==> Lookup(entries, uids[k]).Some?
    ensures |FetchAll(entries, uids)| == |uids|
    ensures forall k :: 0 <= k < |uids| ==>
      FetchAll(entries, uids)[k] == Fetched(uids[k], Lookup(entries, uids[k]).value.message)
  {
    if uids != [] {
      assert forall k :: 1 <= k < |uids| ==> uids[1..][k - 1] == uids[k];
      FetchAllStored(entries, uids[1..]);
    }
  }

  /** The folder after `\Seen` is added to every message whose uid is in `uids`. */
  function MarkedSeen(entries: seq<Entry>, uids: set<Uid>): seq<Entry> {
    seq(|entries|, i requires 0 <= i < |entries| =>
      if entries[i].uid in uids then entries[i].(seen := true) else entries[i])
  }

  /** Adding the flag for one more uid is the same as marking the larger set at once. */
  lemma MarkedSeenOneMore(entries: seq<Entry>, uids: set<Uid>, u: Uid)
    ensures MarkedSeen(MarkedSeen(entries, uids), {u}) == MarkedSeen(entries, uids + {u})
  {
  }

  /** Setting flags changes no uid, so the folder keeps its uids ascending. */
  lemma MarkedSeenKeepsUids(entries: seq<Entry>, uids: set<Uid>)
    ensures |MarkedSeen(entries, uids)| == |entries|
    ensures forall i :: 0 <= i < |entries| ==> MarkedSeen(entries, uids)[i].uid == entries[i].uid
    ensures UidsAscending(entries) ==> UidsAscending(MarkedSeen(entries, uids))
  {
  }

  /**
   * The selected folder, changed in place by STORE, and the server's
   * behaviour on SEARCH: it raises `failuresLeft` more times before it answers.
   */
  class Mailbox {
    var entries: seq<Entry>
    var failuresLeft: nat

    ghost predicate Valid()
      reads this
    {
      UidsAscending(entries)
    }

    constructor (entries: seq<Entry>, failuresLeft: nat)
      requires UidsAscending(entries)
      ensures Valid() && this.entries == entries && this.failuresLeft == failuresLeft
    {
      this.entries := entries;
      this.failuresLeft := failuresLeft;
    }

    /** UID SEARCH: raises while failures are left, else answers; the folder is untouched. */
    method Search(today: int) returns (reply: SearchReply)
      modifies this
      ensures entries == old(entries)
      ensures old(failuresLeft) == 0 ==> reply == Found(Candidates(entries, today)) && failuresLeft == 0
      ensures old(failuresLeft) > 0 ==> reply == SearchError && failuresLeft == old(failuresLeft) - 1
    {
      if failuresLeft > 0 {
        failuresLeft := failuresLeft - 1;
        reply := SearchError;
      } else {
        reply := Found(Candidates(entries, today));
      }
    }

    /** UID FETCH of the RFC822 bodies. */
    method Fetch(uids: seq<Uid>) returns (items: seq<Fetched>)
      ensures items == FetchAll(entries, uids)
    {
      items := FetchAll(entries, uids);
    }

    /** UID STORE +FLAGS (\Seen) on one uid. */
    method AddSeenFlag(uid: Uid)
      requires Valid()
      modifies this
      ensures Valid()
      ensures entries == MarkedSeen(old(entries), {uid})
      ensures failuresLeft == old(failuresLeft)
    {
      MarkedSeenKeepsUids(entries, {uid});
      entries := MarkedSeen(entries, {uid});
    }
  }
}
