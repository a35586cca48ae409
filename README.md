# Garmin LiveTrack mail listener: a verified model

This project models the core of `GarminLinkListener` from
`garmin_livetrack/mail_listener.py`. The listener watches an IMAP inbox for
Garmin LiveTrack notification mails, pulls the LiveTrack link out of the
newest one, and hands the link to a callback. Two private methods hold all
of its logic, and both are modelled here:

- `__extract_garmin_link` turns a parsed e-mail into a link or `None`. It
  picks the HTML text and runs `re.search` with the pattern
  `https://livetrack\.garmin\.com/[\w\-/\?\=&%]+`. The model is pure: the
  message is a datatype, the regular expression is an explicit left-to-right
  scan, and lemmas relate the scan to an independent definition of the
  leftmost, longest match.
- `__process_unseen_messages` searches the inbox for unseen mail from
  `noreply@garmin.com` received since today, walks the fetched messages
  newest first, flags each one `\Seen` after reading it, and gives the first
  link it finds to the callback, then stops. The model is imperative: a
  `Mailbox` class holds the folder and its flags and is changed in place by
  STORE, and `GarminLinkListener` logs every callback invocation. The
  method's postcondition ties the new folder and the callback log to
  specification functions. Lemmas then prove what those functions promise.

Files and modules:

- `wrappers.dfy` (`Wrappers`): `Option`, Python's `X | None`.
- `link_pattern.dfy` (`LinkPattern`): the pattern, the scan that
  `re.search` performs, and its correctness.
- `link_extraction.dfy` (`LinkExtraction`): the message, the choice of the
  HTML part, and `ExtractGarminLink`.
- `imap.dfy` (`Imap`): the server side: folder entries, the search key, UID
  SEARCH, UID FETCH and UID STORE `+FLAGS (\Seen)`.
- `mail_listener.dfy` (`MailListener`): the listener class, the processing
  loop, and the lemmas about one processing pass.

Modelling decisions:

- The scan and its lemmas take the literal head of the pattern as a
  parameter and hold for any head. `ExtractGarminLink` passes
  `https://livetrack.garmin.com/`.
- `\w` is approximated by its ASCII members: letters, digits and `_`. Python
  3 matches every Unicode word character there.
- A message is `Single(contentType, text)` or `Multipart(parts)`. `parts` is
  the pre-order `walk()` of the message, root first. Payloads are already
  decoded to text, and content types are already lower-case.
- A folder entry carries a uid, the From header, the internal date as a day
  number, the `\Seen` flag and the parsed message. Uids ascend in folder
  order (section 2.3.1.1 of RFC 3501).
- The search key `UNSEEN SINCE <today> FROM noreply@garmin.com` follows
  section 6.4.4 of RFC 3501. A message qualifies when it is not `\Seen`, its
  internal date is today or later, and the address occurs in its From header
  (ASCII case ignored). "Today" is a parameter.
- The model assumes that SEARCH answers in folder order and that the FETCH
  reply, a dictionary in the server's reply order, is in folder order too.
  Section 7.2.5 of RFC 3501 fixes neither order, and the order of FETCH
  responses is the server's choice, but typical servers use ascending uids
  for both. Under this assumption `reversed(...)` walks the newest message
  first.
- The callback is a flag saying whether one was registered, plus the log
  `delivered` of the links it was called with.
- A search that raises `IMAP4.abort` or `IMAP4.error` is retried with the
  folder untouched. The `Mailbox` holds `failuresLeft`, the number of times
  the server will still raise before it answers; each such failure uses one
  up. The model loops instead of recursing, and the loop never returns "no
  messages" in place of an answer.
- The processing pass is split into two helper methods. `SearchUntilAnswered`
  is the search with its retry. `InspectNewestFirst` is the `for` loop over
  the reversed fetch reply. `ProcessUnseenMessages` runs the search, the
  fetch and that loop.
- The listener's proofs need only which messages yield a link, not how.
  `InspectNewestFirst` and `OneLiveTrackMail` therefore hide the body of
  `ExtractGarminLink` with a `hide` statement. They rely on its contract
  and on the extraction lemmas.
- `mail_listener.py` does not reconnect, send keep-alives, retry a fetch or
  guard the flag store, and the model has none of these either.

## Model

| member | source | states |
|---|---|---|
| `LinkPattern.IsLinkChar` | garmin_livetrack/mail_listener.py:64 | the character class `[\w\-/\?\=&%]`: ASCII word characters, `-`, `/`, `?`, `=`, `&` and `%`, but not `.` or `#`; what a match may contain after the head is stated through it by `IsLink`, `RunFrom` and `HeadWithoutRunIsSkipped` |
| `LinkPattern.RunFrom` | garmin_livetrack/mail_listener.py:64 | the greedy `[...]+` run from a position: every character in it is in the class, and the character after it is outside the class or the text has ended |
| `LinkPattern.RunCoversStretch` | garmin_livetrack/mail_listener.py:64 | the greedy run is at least as long as any stretch of class characters starting at the same position |
| `LinkPattern.ScanFrom` | garmin_livetrack/mail_listener.py:64-65 | the scan stops at the first position where the literal head is followed by at least one class character; no earlier position qualifies, and None means no position does |
| `LinkPattern.LinkAtIff` | garmin_livetrack/mail_listener.py:64 | a substring matches the pattern exactly when it starts with the head and continues with one up to the greedy-run length of class characters |
| `LinkPattern.MatchStartsAtIff` | garmin_livetrack/mail_listener.py:64-65 | the scan succeeds at a position exactly when some match of the pattern starts there |
| `LinkPattern.FindLink` | garmin_livetrack/mail_listener.py:64-70 | `re.search` plus `group(0)`; its contract is carried by `FindLinkCorrect` and `FindLinkReturnsLeftmostLongest`: it returns the leftmost, longest match, and None exactly when the text has no match |
| `LinkPattern.FindLinkIsLink` | garmin_livetrack/mail_listener.py:64-68 | a returned string is a whole match: the head, then one or more class characters |
| `LinkPattern.NoScanNoLink` | garmin_livetrack/mail_listener.py:65-70 | when the scan finds nothing, no substring of the text matches the pattern |
| `LinkPattern.NothingBeforeScan` | garmin_livetrack/mail_listener.py:65 | no match of the pattern starts left of where the scan stops |
| `LinkPattern.ScanFindsLeftmostLongest` | garmin_livetrack/mail_listener.py:64-68 | where the scan stops, the head plus its greedy run is the leftmost, longest match, and the character after it is outside the class |
| `LinkPattern.FindLinkReported` | garmin_livetrack/mail_listener.py:64-68 | where the scan stops, the returned string is the leftmost, longest match found there |
| `LinkPattern.FindLinkCorrect` | garmin_livetrack/mail_listener.py:63-70 | `re.search` plus `group(0)` returns a contiguous substring that is the leftmost, longest match and ends before a non-class character; it returns None exactly when the text contains no match |
| `LinkPattern.ScanStopsAtLeftmost` | garmin_livetrack/mail_listener.py:65 | if a match starts at a position and none starts further left, the scan stops exactly there |
| `LinkPattern.FindLinkReturnsLeftmostLongest` | garmin_livetrack/mail_listener.py:64-68 | the leftmost, longest match is unique, so any such match is the one returned |
| `LinkPattern.HeadWithoutRunIsSkipped` | garmin_livetrack/mail_listener.py:64-65 | a head followed by `.`, `#`, another non-class character or the end of the text starts no match, so the search moves past it |
| `LinkExtraction.FirstHtmlFrom` | garmin_livetrack/mail_listener.py:45-52 | the `walk()` loop with `break` selects the first `text/html` part; no earlier part is `text/html`, and None means no part is |
| `LinkExtraction.HtmlContent` | garmin_livetrack/mail_listener.py:42-58 | `html_content`: the text of the first `text/html` part, or of a single `text/html` message, else empty; its contract is carried by `FirstHtmlFrom`, `NoHtmlNoLink`, `OnlyFirstHtmlPartRead` and `LaterHtmlPartNeverRead` |
| `LinkExtraction.ExtractGarminLink` | garmin_livetrack/mail_listener.py:37-70 | a returned link starts with `https://livetrack.garmin.com/` and continues with one or more class characters |
| `LinkExtraction.NoHtmlNoLink` | garmin_livetrack/mail_listener.py:42-61 | a non-multipart message that is not `text/html`, a multipart message with no `text/html` part, or an empty HTML text gives None; in a multipart message an empty first `text/html` part gives None even when a later part holds a link |
| `LinkExtraction.ExtractedLinkIsLeftmostLongest` | garmin_livetrack/mail_listener.py:60-70 | the link comes from the selected HTML text and is its leftmost, longest match; None comes back exactly when that text contains no match |
| `LinkExtraction.FirstHtmlPartIs` | garmin_livetrack/mail_listener.py:45-52 | if part k is `text/html` and no earlier part is, the loop stops at k |
| `LinkExtraction.OnlyFirstHtmlPartRead` | garmin_livetrack/mail_listener.py:45-52 | a multipart message gives what its first `text/html` part alone would give; replacing every later part changes nothing |
| `LinkExtraction.LaterHtmlPartNeverRead` | garmin_livetrack/mail_listener.py:45-52 | a string that does not occur in the first `text/html` part is never returned, even if a later HTML part contains it |
| `LinkExtraction.AnchorLinkMatches` | garmin_livetrack/mail_listener.py:64 | in `<a href="https://livetrack.garmin.com/abc?x=1">` the link, nine characters in, matches the pattern |
| `LinkExtraction.NoMatchBeforeAnchorLink` | garmin_livetrack/mail_listener.py:64-65 | no match starts inside `<a href="` |
| `LinkExtraction.NoLongerMatchAtAnchorLink` | garmin_livetrack/mail_listener.py:64 | the closing quote ends the match, so no longer match starts at the link |
| `LinkExtraction.AnchorLinkIsLeftmostLongest` | garmin_livetrack/mail_listener.py:63-68 | in that anchor the link is the leftmost, longest match |
| `LinkExtraction.AnchorLinkExtracted` | garmin_livetrack/mail_listener.py:53-68 | a single `text/html` message with that anchor yields exactly `https://livetrack.garmin.com/abc?x=1` |
| `Imap.Qualifies` | garmin_livetrack/mail_listener.py:77-85 | the search key `UNSEEN SINCE <today> FROM noreply@garmin.com` on one message; `CandidatesExact` and `LiveTrackMailQualifies` state what it admits |
| `Imap.Candidates` | garmin_livetrack/mail_listener.py:77-85 | the uids a successful search answers with; `CandidatesExact`, `CandidatesIncreasing` and `CandidatesStored` state that they are exactly the qualifying uids, ascending, all stored |
| `Imap.CandidatesExact` | garmin_livetrack/mail_listener.py:77-85 | the search answers with exactly the uids of the messages that are unseen, dated today or later, and from `noreply@garmin.com` |
| `Imap.CandidatesIncreasing` | garmin_livetrack/mail_listener.py:77-85 | the search answers in folder order, so the uids increase |
| `Imap.CandidatesStored` | garmin_livetrack/mail_listener.py:77-94 | every uid the search answers with belongs to a stored message, so the fetch finds it |
| `Imap.Lookup` | garmin_livetrack/mail_listener.py:94 | the message stored under a uid, if there is one; None means no message has that uid |
| `Imap.LookupFinds` | garmin_livetrack/mail_listener.py:94 | with unique uids, a message's uid finds that same message |
| `Imap.FetchAll` | garmin_livetrack/mail_listener.py:94 | the FETCH reply for a list of uids; `FetchAllStored` states that it has one item per stored uid, in request order, with that message |
| `Imap.FetchAllStored` | garmin_livetrack/mail_listener.py:94 | when every requested uid is stored, FETCH returns one item per uid, in request order, with that message's content |
| `Imap.MarkedSeen` | garmin_livetrack/mail_listener.py:102 | the folder after `+FLAGS (\Seen)` on a set of uids; `MarkedSeenOneMore`, `MarkedSeenKeepsUids` and `FlaggedOnlyInspected` state that only those messages gain the flag and nothing else changes |
| `Imap.MarkedSeenOneMore` | garmin_livetrack/mail_listener.py:102 | one more flag store on a uid equals marking the enlarged uid set at once |
| `Imap.MarkedSeenKeepsUids` | garmin_livetrack/mail_listener.py:102 | flag stores change no uid and no message count, so the folder keeps its uids ascending |
| `Imap.Mailbox.Search` | garmin_livetrack/mail_listener.py:77-86 | a search raises while the server has failures left, using one up, and otherwise answers with the candidate uids of the current folder; the folder is untouched either way |
| `Imap.Mailbox.Fetch` | garmin_livetrack/mail_listener.py:94 | a fetch returns, for the requested uids, the stored messages, and leaves the folder as it is |
| `Imap.Mailbox.AddSeenFlag` | garmin_livetrack/mail_listener.py:102 | the new folder is the old one with `\Seen` set on the message with that uid and nothing else changed; the folder keeps its uids ascending |
| `MailListener.Reversed` | garmin_livetrack/mail_listener.py:94 | Python's `reversed`; `PendingIsNewestFirst` states that it turns the ascending search reply into strictly decreasing uids |
| `MailListener.Pending` | garmin_livetrack/mail_listener.py:77-94 | the list the loop walks, the reversed FETCH reply for the search hits; `PendingItems`, `PendingIsNewestFirst`, `PendingAreQualifying` and `QualifyingArePending` state that it holds exactly the qualifying messages, newest first |
| `MailListener.Inspected` | garmin_livetrack/mail_listener.py:94-107 | the messages the loop reads and flags; `InspectedStopsAtFirstLink` and `InspectedUidsArePrefix` state that they are the prefix up to and including the first message with a link, or the whole list |
| `MailListener.Dispatched` | garmin_livetrack/mail_listener.py:99-107 | the link the loop stops at; `InspectedStopsAtFirstLink` states that it is the first link in newest-first order, and None exactly when no message yields one |
| `MailListener.FirstLinkFrom` | garmin_livetrack/mail_listener.py:94-107 | the first position from which extraction gives a link; every earlier position gives None |
| `MailListener.InspectedStopsAtFirstLink` | garmin_livetrack/mail_listener.py:99-107 | the loop reads a prefix of the newest-first list, non-empty if the list is; the link dispatched belongs to the last message read, and no earlier message gives one; with no link anywhere, the loop reads everything and dispatches nothing |
| `MailListener.StopsAt` | garmin_livetrack/mail_listener.py:104-107 | breaking at the first message with a link means the messages read are the list up to and including it, and its link is the one dispatched |
| `MailListener.FlagOneMore` | garmin_livetrack/mail_listener.py:102 | flagging the next message read gives the folder with all messages read so far flagged |
| `MailListener.PendingItems` | garmin_livetrack/mail_listener.py:94 | the newest-first list has one item per search hit: the k-th from the end of the reply, with its stored message |
| `MailListener.PendingIsNewestFirst` | garmin_livetrack/mail_listener.py:94 | the newest-first list carries the reversed search reply, so its uids strictly decrease |
| `MailListener.PendingAreQualifying` | garmin_livetrack/mail_listener.py:77-94 | every message the loop can read is a qualifying message of the folder, with its own uid and content |
| `MailListener.QualifyingArePending` | garmin_livetrack/mail_listener.py:77-94 | every qualifying message of the folder is in the newest-first list |
| `MailListener.FlaggedOnlyInspected` | garmin_livetrack/mail_listener.py:73-107 | after a pass, a message outside the search is unchanged; a qualifying message is `\Seen` exactly when the loop read it, so older hits past the break stay unseen; only the flag ever changes |
| `MailListener.InspectedUidsArePrefix` | garmin_livetrack/mail_listener.py:94-107 | the uids the loop reads are the first uids of the list it walks |
| `MailListener.FlaggedIsNewestFirstPrefix` | garmin_livetrack/mail_listener.py:94-107 | the uids flagged in a pass are the first ones of the reversed search reply |
| `MailListener.LiveTrackMailQualifies` | garmin_livetrack/mail_listener.py:77-85 | the search key matches an unseen mail received today whose From header is `Garmin <noreply@garmin.com>` |
| `MailListener.LiveTrackMailPending` | garmin_livetrack/mail_listener.py:77-94 | with that mail alone in the folder, the loop walks exactly that mail |
| `MailListener.OneLiveTrackMail` | garmin_livetrack/mail_listener.py:72-107 | with that mail alone in the folder, holding a LiveTrack anchor, a pass dispatches exactly that link and flags the mail `\Seen` |
| `MailListener.GarminLinkListener.constructor` | garmin_livetrack/mail_listener.py:18-35 | a new listener has the given callback registration and has delivered nothing |
| `MailListener.GarminLinkListener.SearchUntilAnswered` | garmin_livetrack/mail_listener.py:76-92 | each search that raises `IMAP4.abort` or `IMAP4.error` is followed by another one; the result is the answer of the first successful search, after exactly one more search than the server had failures left, never an empty stand-in; the folder is untouched |
| `MailListener.GarminLinkListener.InspectNewestFirst` | garmin_livetrack/mail_listener.py:94-107 | the loop flags exactly the messages it reads; it calls the callback once, with the first link found, if a callback is registered, and otherwise not at all |
| `MailListener.GarminLinkListener.ProcessUnseenMessages` | garmin_livetrack/mail_listener.py:72-107 | after one call, the folder equals the old folder with exactly the read prefix of the newest-first hits flagged; the callback log grows by at most the one dispatched link, and only if a callback is registered; flags are set either way; the folder invariant holds |

## Left out

- `GarminLinkListener.start` (login, `select_folder`, the IDLE and `idle_check` loop): network I/O in an endless loop; its response inspection changes nothing.
- `sleep(60)` before a retried search: wall-clock time.
- MailListener.GarminLinkListener.SearchUntilAnswered: does not model a search that keeps failing. The model's server fails only a finite number `failuresLeft` of times. In the source each failure recurses after 60 s with no limit of its own. After about a thousand failures in a row (Python's default recursion limit), an uncaught `RecursionError` ends the pass, and `start()` with it, closing the connection. The model covers neither the endless retry nor that crash. Its "fails, then answers" countdown also stands in practice only for a recoverable `IMAP4.error`, such as a NO reply: in CPython's imaplib, after an `IMAP4.abort` (end of file, or a BYE the client has recorded), the same connection keeps raising `abort`.
- MailListener.GarminLinkListener.ProcessUnseenMessages: reads the date once per call. The source calls `datetime.date.today()` again on every retry, so a retry after midnight would search with the new date.
- `email.message_from_bytes`, `get_payload(decode=True)`, charset decoding with `errors="ignore"`, and `strftime` date formatting are library calls. The model starts from decoded text, normalised content types and a day number.
- LinkPattern.IsWordChar: covers only ASCII letters, digits and `_`. Python 3's `\w` on `str` also matches non-ASCII letters and digits. A link containing those after at least one ASCII class character ends earlier in the model than in the source. When such a character directly follows the head, as in `https://livetrack.garmin.com/é…`, the source returns a link starting there, while the model skips that head and returns a later match or None.
- Imap.Mailbox.Fetch: does not set `\Seen` itself. By section 6.4.5 of RFC 3501, a FETCH of `RFC822` (not `BODY.PEEK`) on a read-write mailbox sets `\Seen` on every fetched message. On a real server, every search hit therefore ends up seen, not only the prefix the loop reads and flags explicitly.
- Exceptions that leave the source method are not modelled: the model assumes that a search raises nothing but `IMAP4.abort` or `IMAP4.error` (any other exception, such as an `OSError` from the socket, ends the pass with no retry), that FETCH and the flag store succeed, that decoding a payload raises no `LookupError` for a charset name Python does not know (which would end the pass before that message is flagged), and that the callback raises nothing.
- Other clients changing the folder between the search, the fetch and the flag stores: the model is sequential.
- Logging, `garmin_livetrack/logger.py`, `garmin_livetrack/signal_bot.py` (the REST client that sends the link) and `garmin_livetrack/main.py` (environment variables and the global bot behind the callback): configuration and network I/O. The callback is modelled only by the log of its invocations.
