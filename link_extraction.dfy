/**
 * Link extraction from a parsed e-mail: pick the HTML text (the first
 * `text/html` part of a multipart message, or the whole message when it is
 * a single `text/html` part) and search it for a LiveTrack link.
 * Payloads are taken as already decoded to text.
 */
module LinkExtraction {
  import opened Wrappers
  import opened LinkPattern

  const HtmlType: string := "text/html"

  /** One node of `msg.walk()`: its content type and its decoded payload. */
  datatype Part = Part(contentType: string, text: string)

  /**
   * A parsed message. `Multipart` holds the pre-order `walk()` of the
   * message, root first; the root has a multipart content type, so it is never
   * taken for the HTML part.
   */
  datatype Message =
    | Single(contentType: string, text: string)
    | Multipart(parts: seq<Part>)

  /** The `for part in msg.walk()` loop with its `break`: the first `text/html` part at or after `i`. */
  function FirstHtmlFrom(parts: seq<Part>, i: nat): (r: Option<nat>)
    requires i <= |parts|
    ensures r.Some? ==> i <= r.value < |parts| && parts[r.value].contentType == HtmlType
    ensures forall k :: i <= k < (if r.Some? then r.value else |parts|) ==> parts[k].contentType != HtmlType
    decreases |parts| - i
  {
    if i == |parts| then None
    else if parts[i].contentType == HtmlType then Some(i)
    else FirstHtmlFrom(parts, i + 1)
  }

  function FirstHtmlPart(parts: seq<Part>): Option<nat> {
    FirstHtmlFrom(parts, 0)
  }

  /** `html_content`: the text of the selected HTML part, or "" when there is none. */
  function HtmlContent(m: Message): string {
    match m
    case Single(t, text) => if t == HtmlType then text else ""
    case Multipart(parts) =>
      match FirstHtmlPart(parts)
      case Some(k) => parts[k].text
      case None => ""
  }

  /** `__extract_garmin_link`. */
  function ExtractGarminLink(m: Message): (r: Option<string>)
    ensures r.Some? ==> IsLink(Prefix, r.value)
  {
    var html := HtmlContent(m);
    if html == "" then None
    else
      FindLinkIsLink(Prefix, html);
      FindLink(Prefix, html)
  }

  /**
   * A message with no HTML text, or with an empty one, yields no link; in a
   * multipart message that is so even when a later HTML part holds a link.
   */
  lemma NoHtmlNoLink(m: Message)
    ensures m.Single? && m.contentType != HtmlType ==> ExtractGarminLink(m) == None
    ensures (m.Multipart? && forall k :: 0 <= k < |m.parts| ==> m.parts[k].contentType != HtmlType)
      ==> ExtractGarminLink(m) == None
    ensures HtmlContent(m) == "" ==> ExtractGarminLink(m) == None
  {
    if m.Multipart? && FirstHtmlPart(m.parts).Some? {
      assert m.parts[FirstHtmlPart(m.parts).value].contentType == HtmlType;
    }
  }

  /**
   * The returned link is read from the HTML text: it is the leftmost,
   * longest match there, it ends before a character outside the class, and
   * None comes back exactly when the HTML text holds no match.
   */
  lemma ExtractedLinkIsLeftmostLongest(m: Message)
    ensures ExtractGarminLink(m).Some? ==>
      exists i: nat :: Reported(Prefix, HtmlContent(m), i, ExtractGarminLink(m).value)
    ensures ExtractGarminLink(m).None? <==> forall i: nat, n: nat :: !LinkAt(Prefix, HtmlContent(m), i, n)
  {
    FindLinkCorrect(Prefix, HtmlContent(m));
  }

  /** The `walk()` loop stops at `k` when `k` is the first `text/html` part. */
  lemma FirstHtmlPartIs(parts: seq<Part>, k: nat)
    requires k < |parts| && parts[k].contentType == HtmlType
    requires forall j :: 0 <= j < k ==> parts[j].contentType != HtmlType
    ensures FirstHtmlPart(parts) == Some(k)
  {
  }

  /**
   * A multipart message is read only through its first `text/html` part:
   * it yields what that part alone would yield, and whatever parts follow
   * it do not matter.
   */
  lemma OnlyFirstHtmlPartRead(parts: seq<Part>, k: nat, later: seq<Part>)
    requires k < |parts| && parts[k].contentType == HtmlType
    requires forall j :: 0 <= j < k ==> parts[j].contentType != HtmlType
    ensures ExtractGarminLink(Multipart(parts)) == ExtractGarminLink(Single(HtmlType, parts[k].text))
    ensures ExtractGarminLink(Multipart(parts[..k + 1] + later)) == ExtractGarminLink(Multipart(parts))
  {
    FirstHtmlPartIs(parts, k);
    assert HtmlContent(Multipart(parts)) == parts[k].text;
    var q := parts[..k + 1] + later;
    forall j | 0 <= j < k ensures q[j].contentType != HtmlType {
      assert q[j] == parts[j];
    }
    assert q[k] == parts[k];
    FirstHtmlPartIs(q, k);
    assert HtmlContent(Multipart(q)) == parts[k].text;
  }

  /** `l` occurs in `text` at position `i`. */
  predicate OccursAt(text: string, l: string, i: nat) {
    i + |l| <= |text| && text[i..i + |l|] == l
  }

  /** A link that is not in the first `text/html` part, only in a later one, is never returned. */
  lemma LaterHtmlPartNeverRead(parts: seq<Part>, k: nat, l: string)
    requires k < |parts| && parts[k].contentType == HtmlType
    requires forall j :: 0 <= j < k ==> parts[j].contentType != HtmlType
    requires forall i: nat :: !OccursAt(parts[k].text, l, i)
    ensures ExtractGarminLink(Multipart(parts)) != Some(l)
  {
    var text := parts[k].text;
    OnlyFirstHtmlPartRead(parts, k, []);
    var r := ExtractGarminLink(Multipart(parts));
    if r.Some? {
      assert HtmlContent(Single(HtmlType, text)) == text;
      ExtractedLinkIsLeftmostLongest(Single(HtmlType, text));
      var i: nat :| Reported(Prefix, text, i, r.value);
      assert OccursAt(text, r.value, i);
    }
  }

  /** The two characters a match starts with. */
  lemma HeadAtStartsWithHt(s: string, j: nat)
    requires HeadAt(Prefix, s, j)
    ensures s[j] == 'h' && s[j + 1] == 't'
  {
    assert s[j..j + |Prefix|][0] == s[j];
    assert s[j..j + |Prefix|][1] == s[j + 1];
  }

  const AnchorLink: string := Prefix + "abc?x=1"
  const AnchorHtml: string := "<a href=\"" + AnchorLink + "\">"

  /** The anchor's link is a match, nine characters in. */
  lemma AnchorLinkMatches()
    ensures LinkAt(Prefix, AnchorHtml, 9, |AnchorLink|)
  {
    assert AnchorHtml[9..9 + |AnchorLink|] == AnchorLink;
    assert AnchorLink[..|Prefix|] == Prefix;
  }

  /** No match starts inside `<a href="`: no `h` there is followed by `t`. */
  lemma NoMatchBeforeAnchorLink()
    ensures forall j: nat, m: nat :: j < 9 ==> !LinkAt(Prefix, AnchorHtml, j, m)
  {
    forall j: nat, m: nat | j < 9 ensures !LinkAt(Prefix, AnchorHtml, j, m) {
      LinkAtIff(Prefix, AnchorHtml, j, m);
      if HeadAt(Prefix, AnchorHtml, j) {
        HeadAtStartsWithHt(AnchorHtml, j);
      }
    }
  }

  /** The closing quote ends the match. */
  lemma NoLongerMatchAtAnchorLink()
    ensures forall m: nat :: LinkAt(Prefix, AnchorHtml, 9, m) ==> m <= |AnchorLink|
  {
    forall m: nat | LinkAt(Prefix, AnchorHtml, 9, m) ensures m <= |AnchorLink| {
      LinkAtIff(Prefix, AnchorHtml, 9, m);
      assert !IsLinkChar(AnchorHtml[9 + |AnchorLink|]);
    }
  }

  /** In the anchor, the link is the leftmost, longest match. */
  lemma AnchorLinkIsLeftmostLongest()
    ensures LeftmostLongest(Prefix, AnchorHtml, 9, |AnchorLink|)
  {
    AnchorLinkMatches();
    NoMatchBeforeAnchorLink();
    NoLongerMatchAtAnchorLink();
  }

  /**
   * A single `text/html` message whose only match is a link inside an
   * anchor yields exactly that link, character for character.
   */
  lemma AnchorLinkExtracted()
    ensures ExtractGarminLink(Single(HtmlType, AnchorHtml)) == Some(AnchorLink)
  {
    AnchorLinkIsLeftmostLongest();
    FindLinkReturnsLeftmostLongest(Prefix, AnchorHtml, 9, |AnchorLink|);
    assert AnchorHtml[9..9 + |AnchorLink|] == AnchorLink;
  }
}
