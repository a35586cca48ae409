/**
 * The regular expression `https://livetrack\.garmin\.com/[\w\-/\?\=&%]+` and
 * what `re.search` does with it, written out as an explicit scan: at each
 * position, left to right, look for the literal head and then take the
 * greedy run of one or more characters from the class.
 *
 * The definitions and lemmas take the literal head as a parameter `head`:
 * they hold for any head, and `Prefix` is the one the listener searches for.
 */
module LinkPattern {
  import opened Wrappers

  /** The literal head of the listener's pattern, with its escapes resolved. */
  const Prefix: string := "https://livetrack.garmin.com/"

  /** `\w`, approximated by its ASCII members: letters, digits and underscore. */
  predicate IsWordChar(c: char) {
    ('a' <= c <= 'z') || ('A' <= c <= 'Z') || ('0' <= c <= '9') || c == '_'
  }

  /** Membership in the character class `[\w\-/\?\=&%]`; note that `.` and `#` are not members. */
  predicate IsLinkChar(c: char) {
    IsWordChar(c) || c == '-' || c == '/' || c == '?' || c == '=' || c == '&' || c == '%'
  }

  /** `l` is a whole match of the pattern: the head, then one or more link characters. */
  predicate IsLink(head: string, l: string) {
    && |head| < |l|
    && l[..|head|] == head
    && forall k :: |head| <= k < |l| ==> IsLinkChar(l[k])
  }

  /** The `n` characters of `s` starting at `i` are a match of the pattern. */
  predicate LinkAt(head: string, s: string, i: nat, n: nat) {
    i + n <= |s| && IsLink(head, s[i..i + n])
  }

  /**
   * The match `re.search` reports, as a reference definition independent of
   * the scan: no match starts further left, and at its start no match is longer.
   */
  ghost predicate LeftmostLongest(head: string, s: string, i: nat, n: nat) {
    && LinkAt(head, s, i, n)
    && (forall j: nat, m: nat :: j < i ==> !LinkAt(head, s, j, m))
    && (forall m: nat :: LinkAt(head, s, i, m) ==> m <= n)
  }

  /** The literal head occurs in `s` at position `i`. */
  predicate HeadAt(head: string, s: string, i: nat) {
    i + |head| <= |s| && s[i..i + |head|] == head
  }

  /** Length of the greedy run of link characters of `s` starting at `i`. */
  function RunFrom(s: string, i: nat): (n: nat)
    requires i <= |s|
    ensures i + n <= |s|
    ensures forall k :: i <= k < i + n ==> IsLinkChar(s[k])
    ensures i + n == |s| || !IsLinkChar(s[i + n])
    decreases |s| - i
  {
    if i < |s| && IsLinkChar(s[i]) then 1 + RunFrom(s, i + 1) else 0
  }

  /** At `i` the scan succeeds: the head is there and the run after it is not empty. */
  predicate MatchStartsAt(head: string, s: string, i: nat) {
    HeadAt(head, s, i) && 0 < RunFrom(s, i + |head|)
  }

  /** The scan of `re.search` from position `i`: the first position where a match starts. */
  function ScanFrom(head: string, s: string, i: nat): (r: Option<nat>)
    requires i <= |s|
    ensures r.Some? ==> i <= r.value < |s| && MatchStartsAt(head, s, r.value)
    ensures forall j: nat :: i <= j < (if r.Some? then r.value else |s|) ==> !MatchStartsAt(head, s, j)
    decreases |s| - i
  {
    if i == |s| then None
    else if MatchStartsAt(head, s, i) then Some(i)
    else ScanFrom(head, s, i + 1)
  }

  /** `re.search(pattern, s)` followed by `match.group(0)`, or None when nothing matches. */
  function FindLink(head: string, s: string): Option<string> {
    match ScanFrom(head, s, 0)
    case None => None
    case Some(i) => Some(s[i..i + |head| + RunFrom(s, i + |head|)])
  }

  /** The greedy run is at least as long as any stretch of link characters at the same start. */
  lemma {:induction false} RunCoversStretch(s: string, i: nat, m: nat)
    requires i + m <= |s|
    requires forall k :: i <= k < i + m ==> IsLinkChar(s[k])
    ensures m <= RunFrom(s, i)
    decreases m
  {
    if 0 < m {
      RunCoversStretch(s, i + 1, m - 1);
    }
  }

  /** A match of `n` characters at `i` is the head followed by at most the greedy run. */
  lemma LinkAtIff(head: string, s: string, i: nat, n: nat)
    ensures LinkAt(head, s, i, n) <==>
      HeadAt(head, s, i) && |head| < n <= |head| + RunFrom(s, i + |head|)
  {
    if LinkAt(head, s, i, n) {
      var l := s[i..i + n];
      assert l[..|head|] == s[i..i + |head|];
      forall k | i + |head| <= k < i + n ensures IsLinkChar(s[k]) {
        assert s[k] == l[k - i];
      }
      RunCoversStretch(s, i + |head|, n - |head|);
    }
    if HeadAt(head, s, i) && |head| < n <= |head| + RunFrom(s, i + |head|) {
      var l := s[i..i + n];
      assert l[..|head|] == s[i..i + |head|];
      forall k | |head| <= k < |l| ensures IsLinkChar(l[k]) {
        assert l[k] == s[i + k];
      }
    }
  }

  /** The scan succeeds at `i` exactly when some match starts at `i`. */
  lemma MatchStartsAtIff(head: string, s: string, i: nat)
    ensures MatchStartsAt(head, s, i) <==> exists n: nat :: LinkAt(head, s, i, n)
  {
    if MatchStartsAt(head, s, i) {
      LinkAtIff(head, s, i, |head| + 1);
    }
    forall n: nat | LinkAt(head, s, i, n) ensures MatchStartsAt(head, s, i) {
      LinkAtIff(head, s, i, n);
    }
  }

  /** Where the scan stops, FindLink returns the head with its greedy run. */
  lemma FindLinkAtScan(head: string, s: string, j: nat)
    requires ScanFrom(head, s, 0) == Some(j)
    ensures FindLink(head, s) == Some(s[j..j + |head| + RunFrom(s, j + |head|)])
  {
  }

  /** What FindLink returns is a whole match of the pattern. */
  lemma FindLinkIsLink(head: string, s: string)
    ensures FindLink(head, s).Some? ==> IsLink(head, FindLink(head, s).value)
  {
    match ScanFrom(head, s, 0)
    case None =>
    case Some(i) =>
      LinkAtIff(head, s, i, |head| + RunFrom(s, i + |head|));
      FindLinkAtScan(head, s, i);
  }

  /** What FindLink returns, as a relation to the text it searched. */
  ghost predicate Reported(head: string, s: string, i: nat, l: string) {
    && LeftmostLongest(head, s, i, |l|)
    && l == s[i..i + |l|]
    && (i + |l| == |s| || !IsLinkChar(s[i + |l|]))
  }

  /** When the scan finds nothing, the text holds no match at all. */
  lemma NoScanNoLink(head: string, s: string)
    requires ScanFrom(head, s, 0).None?
    ensures forall i: nat, n: nat :: !LinkAt(head, s, i, n)
  {
    forall i: nat, n: nat ensures !LinkAt(head, s, i, n) {
      if LinkAt(head, s, i, n) {
        MatchStartsAtIff(head, s, i);
      }
    }
  }

  /** No match starts left of where the scan stops. */
  lemma NothingBeforeScan(head: string, s: string, i: nat)
    requires ScanFrom(head, s, 0) == Some(i)
    ensures forall j: nat, m: nat :: j < i ==> !LinkAt(head, s, j, m)
  {
    forall j: nat, m: nat | j < i ensures !LinkAt(head, s, j, m) {
      if LinkAt(head, s, j, m) {
        MatchStartsAtIff(head, s, j);
      }
    }
  }

  /** Where the scan stops, the head and its greedy run form the leftmost, longest match. */
  lemma ScanFindsLeftmostLongest(head: string, s: string, i: nat)
    requires ScanFrom(head, s, 0) == Some(i)
    ensures Reported(head, s, i, s[i..i + |head| + RunFrom(s, i + |head|)])
  {
    var n := |head| + RunFrom(s, i + |head|);
    LinkAtIff(head, s, i, n);
    NothingBeforeScan(head, s, i);
    forall m: nat | LinkAt(head, s, i, m) ensures m <= n {
      LinkAtIff(head, s, i, m);
    }
    assert LeftmostLongest(head, s, i, n);
  }

  /** Where the scan stops, FindLink reports the match found there. */
  lemma FindLinkReported(head: string, s: string, i: nat)
    requires ScanFrom(head, s, 0) == Some(i)
    ensures FindLink(head, s).Some? && Reported(head, s, i, FindLink(head, s).value)
    ensures LinkAt(head, s, i, |FindLink(head, s).value|)
  {
    ScanFindsLeftmostLongest(head, s, i);
    FindLinkAtScan(head, s, i);
  }

  /**
   * FindLink agrees with the reference definition: it returns the leftmost,
   * longest match, which stops before a character outside the class, and it
   * returns None exactly when the text holds no match at all.
   */
  lemma FindLinkCorrect(head: string, s: string)
    ensures FindLink(head, s).Some? ==> exists i: nat :: Reported(head, s, i, FindLink(head, s).value)
    ensures FindLink(head, s).None? <==> forall i: nat, n: nat :: !LinkAt(head, s, i, n)
  {
    match ScanFrom(head, s, 0)
    case None =>
      NoScanNoLink(head, s);
    case Some(i) =>
      FindLinkReported(head, s, i);
  }

  /** The scan stops at the leftmost match. */
  lemma ScanStopsAtLeftmost(head: string, s: string, i: nat, n: nat)
    requires LinkAt(head, s, i, n)
    requires forall j: nat, m: nat :: j < i ==> !LinkAt(head, s, j, m)
    ensures ScanFrom(head, s, 0) == Some(i)
  {
    MatchStartsAtIff(head, s, i);
    // A match starts at `i`, so the scan stops there or further left.
    var j := ScanFrom(head, s, 0).value;
    LinkAtIff(head, s, j, |head| + RunFrom(s, j + |head|));
    NothingBeforeScan(head, s, j);
  }

  /** The leftmost, longest match is unique, so it is the one FindLink returns. */
  lemma FindLinkReturnsLeftmostLongest(head: string, s: string, i: nat, n: nat)
    requires LeftmostLongest(head, s, i, n)
    ensures FindLink(head, s) == Some(s[i..i + n])
  {
    ScanStopsAtLeftmost(head, s, i, n);
    var m := |head| + RunFrom(s, i + |head|);
    // Neither the match found nor the given one is longer than the other.
    LinkAtIff(head, s, i, m);
    LinkAtIff(head, s, i, n);
    assert m == n;
    FindLinkAtScan(head, s, i);
  }

  /** A head followed by a character outside the class, or by nothing, starts no match. */
  lemma HeadWithoutRunIsSkipped(head: string, s: string, i: nat)
    requires HeadAt(head, s, i)
    requires i + |head| == |s| || !IsLinkChar(s[i + |head|])
    ensures forall n: nat :: !LinkAt(head, s, i, n)
  {
    forall n: nat ensures !LinkAt(head, s, i, n) {
      LinkAtIff(head, s, i, n);
    }
  }
}
