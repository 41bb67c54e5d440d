# Huggle anti-vandalism network relay, in Dafny

Huggle's `VandalNw` widget connects the client to the Huggle anti-vandalism
network, a set of IRC channels (one per wiki) on which Huggle users tell each
other what they did with an edit. This project models the relay's core,
`src/huggle_ui/vandalnw.cpp`:

- **Outgoing reports.** `Good`, `Rollback` and `SuspiciousWikiEdit` send a
  command line to the channel of the edit's site. The line is two U+0001
  characters, a verb and the revision id. `WarningSent` sends a WARN line
  with a level and a percent-encoded user name.
- **Incoming lines.** `OnIRCChannelMessage` and `OnIRCChannelCTCP` route a
  line from a known channel to `ProcessCommand`, or show it as chat.
  `ProcessCommand` cuts the line into verb, revision id and parameter.
- **Applying reports.** GOOD, ROLLBACK and SUSPICIOUS reports change the
  edit author's badness or the edit's score, and ask the edit queue to drop
  or re-sort the edit. SCORED reports add a peer's score and keep the first
  one as the "Bot score" label.
- **Pending reports.** A report on an edit that is not in the queue yet is
  kept in one of four pending lists. `IsParsed` and `Rescore` apply it when
  the edit arrives.
- **Channel tables.** `GetChannel` builds the site-to-channel and
  channel-to-site tables from each site's own channel or from a
  `$feed`/`$wiki` mask.
- **Chat sanitiser.** `SafeHtml` makes chat text safe to show.
- **Session flag.** `JoinedMain` is set by the login callback
  (`OnIRCLoggedIn`) and cleared only by `Disconnect`; `Connect` only applies
  its three guards and opens the connection.

Modules, one per file:

- `wrappers.dfy` (`Wrappers`): `Option`.
- `qtstring.dfy` (`QtString`): the QString operations the code uses, with Qt's edge cases.
- `sanitiser.dfy` (`Sanitiser`): `SafeHtml`.
- `channels.dfy` (`Channels`): `WikiSite` and the channel tables.
- `protocol.dfy` (`Protocol`): the command-line format, written and read.
- `pending.dfy` (`Pending`): the pending items and the list operations on them.
- `wiki.dfy` (`Wiki`): users, edits, the edit queue as the relay sees it, and score merging.
- `network.dfy` (`Transport`): the IRC connection as a log of calls.
- `relay.dfy` (`Relay`): the `VandalNw` class.

Behaviour that follows the code where a plain description would say
otherwise:

- **Pending-list size.** A list is trimmed while it is longer than the
  cache size, and the new report is appended after that. A list can
  therefore hold `SystemConfig_CacheHAN + 1` entries.
- **Channel-to-site table.** `Ch2Site` is never cleared. When two sites
  share a channel, the later one silently takes it over.
- **Dropped lines.** A marked line with an unknown verb, a lower-case verb
  or no space after the verb is dropped. It is not shown as chat.
- **Matching.** Pending entries match on revision id only, never on the
  site.
- **Rescore.** The deferred `Rescore` path does not re-sort the queue.
- **First fragment.** `SafeHtml` does not put a '<' back in front of the
  first fragment, but it still runs the tag check on it from index 1.
  `xb>` therefore counts as the allowed tag `b` and is kept.
- **SendMessage.** The current project's channel is read with the hash's
  `operator[]`. That adds an empty entry to `Site2Channel` when the project
  has no channel, and the text is then sent to the empty channel name.
- **Logout.** `OnDisconnected` does not reset `JoinedMain`; only
  `Disconnect` does.

## Model

| member | source | states |
|---|---|---|
| QtString.IndexOf | src/huggle_ui/vandalnw.cpp:453-459 | `indexOf` is -1 exactly when the character is absent; otherwise the character is at that position and not before it |
| QtString.JoinSplit | src/huggle_ui/vandalnw.cpp:48 | `split` keeps empty parts: putting the separator back between the parts gives the text back |
| QtString.SplitJoin | src/huggle_ui/vandalnw.cpp:48 | splitting separator-free parts joined by the separator gives the parts back |
| QtString.ReplaceMiddle | src/huggle_ui/vandalnw.cpp:245-246 | `replace` keeps the text before the first occurrence, puts the replacement in its place and resumes the scan right after it, so inserted text is not scanned again |
| QtString.ReplaceAllFreePrefix | src/huggle_ui/vandalnw.cpp:245-246 | text without the pattern's first character passes through `replace` unchanged in front of the rest |
| QtString.ReplaceAllFree | src/huggle_ui/vandalnw.cpp:245-246 | text without the pattern's first character is left unchanged |
| QtString.ToLower | src/huggle_ui/vandalnw.cpp:443 | `toLower` keeps the length and lowers exactly the ASCII capitals |
| QtString.NatToString | src/huggle_ui/vandalnw.cpp:191 | `QString::number` writes at least one digit, and never a leading zero |
| QtString.IntToStringRoundTrip | src/huggle_ui/vandalnw.cpp:463 | `toInt` reads back exactly the number `QString::number` wrote, negative numbers included |
| QtString.IntToStringHasNoSpace | src/huggle_ui/vandalnw.cpp:191 | a written number holds no space, so it stays one word of a command line |
| Sanitiser.TagName | src/huggle_ui/vandalnw.cpp:63-70 | the tag name (from index 1 to the first '>', leading '/' dropped, cut at the first space) holds no space |
| Sanitiser.SafeHtml | src/huggle_ui/vandalnw.cpp:42-77 | the loop returns the fragment results concatenated in split order |
| Sanitiser.RenderSnoc | src/huggle_ui/vandalnw.cpp:50-74 | each fragment's result is appended after those of the fragments before it |
| Sanitiser.ConcatReopened | src/huggle_ui/vandalnw.cpp:48-55 | re-adding '<' to every part but the first gives back the text the split cut |
| Sanitiser.SanitizedLossless | src/huggle_ui/vandalnw.cpp:48-75 | with an encoder that changes nothing the output is the input: cutting and re-adding '<' loses nothing |
| Sanitiser.MarkupOnlyFromAllowedTags | src/huggle_ui/vandalnw.cpp:56-74 | if the encoder never writes '<', the output holds exactly as many '<' as there are fragments after the first kept for having an allowed tag name, so every '<' comes from such a fragment (and if there is any '<', some such fragment exists) |
| Sanitiser.RenderOpenCount | src/huggle_ui/vandalnw.cpp:56-74 | over fragments holding one '<' each, the loop's output holds one '<' per kept fragment and none from encoded ones |
| Sanitiser.TagNameOfTag | src/huggle_ui/vandalnw.cpp:63-70 | the tag name of `<name attrs>` and `</name attrs>` is `name` |
| Sanitiser.TagKeptIffAllowed | src/huggle_ui/vandalnw.cpp:56-73 | a tag fragment is copied verbatim if and only if its name is one of b, big, font, i, s, u, compared case-sensitively |
| Sanitiser.AllowedPairKept | src/huggle_ui/vandalnw.cpp:46-75 | an allowed tag pair with attributes, such as `<b onclick=x>hi</b>`, comes out unchanged |
| Sanitiser.OtherPairEncoded | src/huggle_ui/vandalnw.cpp:71-73 | any other tag pair has both fragments passed through the encoder |
| Sanitiser.SanitizedTagPairShape | src/huggle_ui/vandalnw.cpp:48-75 | text `<a<b` (no other '<') gives the empty first fragment's, then `<a`'s, then `<b`'s result, in order |
| Sanitiser.FirstFragmentChecked | src/huggle_ui/vandalnw.cpp:52-73 | the first fragment gets no '<' but is still tag-checked: `xb>` is kept |
| Channels.SiteTable | src/huggle_ui/vandalnw.cpp:235-251 | after a rebuild `Site2Channel` holds exactly the configured projects, each with its own channel |
| Channels.ChannelTableDomain | src/huggle_ui/vandalnw.cpp:235-250 | a channel is in `Ch2Site` after a rebuild if and only if it was there before or some project maps to it |
| Channels.ChannelTableLastWins | src/huggle_ui/vandalnw.cpp:236-250 | a channel maps back to the last project in the list that uses it |
| Channels.ChannelTableKeepsStale | src/huggle_ui/vandalnw.cpp:235-250 | an entry for a channel no project uses any more survives unchanged |
| Channels.RoutingRoundTrip | src/huggle_ui/vandalnw.cpp:249-250 | a project whose channel no later project shares is found again from its channel |
| Channels.SharedChannelLaterWins | src/huggle_ui/vandalnw.cpp:249-250 | of two projects on one channel the later owns it, with no error |
| Channels.MaskInstantiation | src/huggle_ui/vandalnw.cpp:238-247 | for a site without its own channel and a mask holding one `$feed` followed by one `$wiki`, with no other '$' in the mask or the feed channel, the channel is the mask with `$feed` set to the feed channel and `$wiki` to the site name (the general rule is `ChannelName`, used in `SiteTable`) |
| Channels.FeedTextSubstitutedAgain | src/huggle_ui/vandalnw.cpp:245-246 | `$wiki` inside the feed channel is replaced too, because the second replace runs on the first one's output |
| Protocol.AfterPrefix | src/huggle_ui/vandalnw.cpp:450 | the verb search starts after the two marker characters |
| Protocol.CutWord | src/huggle_ui/vandalnw.cpp:453-454 | cutting `word rest` at the first space gives the word and the rest |
| Protocol.TokeniseWords | src/huggle_ui/vandalnw.cpp:450-460 | a marked line `verb rest` gives that verb, and the revision id and parameter are cut from `rest` |
| Protocol.TokeniseTwo | src/huggle_ui/vandalnw.cpp:450-460 | `verb arg` gives the verb, the argument and an empty parameter |
| Protocol.TokeniseThree | src/huggle_ui/vandalnw.cpp:450-460 | `verb arg param` gives all three; the parameter may itself hold spaces |
| Protocol.DecodeCommandLine | src/huggle_ui/vandalnw.cpp:181-218 | the lines Good, Rollback and SuspiciousWikiEdit send decode to the same verb and revision id |
| Protocol.DecodeIgnoresTrailing | src/huggle_ui/vandalnw.cpp:455-463 | text after the revision id does not change what a GOOD line means |
| Protocol.DecodeScoredLine | src/huggle_ui/vandalnw.cpp:509-512 | a SCORED line decodes to its revision id and score, negative ones too |
| Protocol.WarnLineIgnored | src/huggle_ui/vandalnw.cpp:220-231 | a WARN line, as sent, is ignored by the receiving side |
| Protocol.VerbWithoutArgumentIgnored | src/huggle_ui/vandalnw.cpp:450-451 | a marked line with no space after the verb is dropped |
| Protocol.LowerCaseVerbIgnored | src/huggle_ui/vandalnw.cpp:461 | verbs are compared case-sensitively: `good` is dropped |
| Pending.Trim | src/huggle_ui/vandalnw.cpp:470-473 | trimming from the front leaves the newest `cache` entries, or the whole list when it is no longer |
| Pending.RecordedBound | src/huggle_ui/vandalnw.cpp:470-474 | after a miss the list holds at most cache + 1 entries, the new report last |
| Pending.RecordAllKeepsNewest | src/huggle_ui/vandalnw.cpp:470-474 | reports recorded one after the other leave exactly the newest cache + 1 of them: eviction is oldest first |
| Pending.FirstMatch | src/huggle_ui/vandalnw.cpp:257-259 | the index is that of the first entry for the revision id (site not compared), or the list length |
| Pending.FindRevID | src/huggle_ui/vandalnw.cpp:256-266 | the index-based scan stops at the first match |
| Pending.RemoveAtOne | src/huggle_ui/vandalnw.cpp:262 | `removeAt` removes exactly that one entry and keeps the others in order |
| Pending.RemoveFirstMatch | src/huggle_ui/vandalnw.cpp:259-262 | removing the first match removes one entry for the revision id and nothing else |
| Wiki.ScoreAfterAddsAll | src/huggle_ui/vandalnw.cpp:520 | every merged score is added to the edit's score |
| Wiki.LabelsAfterKeepsExisting | src/huggle_ui/vandalnw.cpp:521-522 | an existing "Bot score" label, and every other label, survives any number of merges |
| Wiki.LabelsAfterFirstWins | src/huggle_ui/vandalnw.cpp:521-522 | without a label to start with, the label holds the first merged score |
| Wiki.TenThenFifteen | src/huggle_ui/vandalnw.cpp:520-522 | merging 10 then 15 adds 25, and the label reads 10 |
| Relay.VandalNw.constructor | src/huggle_ui/vandalnw.cpp:119-121 | a new relay has not joined, has empty pending lists, and its tables are built from the configured projects |
| Relay.VandalNw.GetChannel | src/huggle_ui/vandalnw.cpp:233-252 | `Site2Channel` is rebuilt from scratch and `Ch2Site` is updated on top of what it held |
| Relay.VandalNw.Good | src/huggle_ui/vandalnw.cpp:181-192 | a null edit or a site without a channel sends nothing; otherwise one GOOD line goes to the site's channel and decodes back to the same revision |
| Relay.VandalNw.Rollback | src/huggle_ui/vandalnw.cpp:194-205 | the same for ROLLBACK |
| Relay.VandalNw.SuspiciousWikiEdit | src/huggle_ui/vandalnw.cpp:207-218 | the same for SUSPICIOUS |
| Relay.VandalNw.WarningSent | src/huggle_ui/vandalnw.cpp:220-231 | a null user or a site without a channel sends nothing; otherwise one WARN line with the level and encoded name, which peers ignore |
| Relay.VandalNw.ProcessGood | src/huggle_ui/vandalnw.cpp:363-370 | the author's badness drops by 200 and the queue is asked to drop the edit |
| Relay.VandalNw.ProcessRollback | src/huggle_ui/vandalnw.cpp:372-386 | the author's badness rises by 200; older edits are dropped first only if so configured, then the edit |
| Relay.VandalNw.ProcessSusp | src/huggle_ui/vandalnw.cpp:388-396 | the edit's score rises by 600 and the queue re-sorts it |
| Relay.VandalNw.MergeScore | src/huggle_ui/vandalnw.cpp:520-522 | the score is added, and the label is set only when absent |
| Relay.VandalNw.Correlate | src/huggle_ui/vandalnw.cpp:461-506 | a report on a queued edit is applied once and nothing is kept; otherwise the list is trimmed and the report appended |
| Relay.VandalNw.ScoreReport | src/huggle_ui/vandalnw.cpp:514-531 | a score on a queued edit is merged and the edit re-sorted; otherwise the score is kept pending |
| Relay.VandalNw.ProcessCommand | src/huggle_ui/vandalnw.cpp:440-535 | each verb's effect; a zero score, an unknown verb or a line without a space changes nothing; the lists stay within cache + 1 |
| Relay.VandalNw.Claim | src/huggle_ui/vandalnw.cpp:256-266 | one scan: the first entry for the revision is processed and removed, or nothing changes |
| Relay.VandalNw.IsParsed | src/huggle_ui/vandalnw.cpp:254-290 | rollbacks are searched first, then suspicious reports, then good ones; exactly one entry is applied and removed, or the result is false and nothing changes |
| Relay.VandalNw.Rescore | src/huggle_ui/vandalnw.cpp:292-329 | the first pending score for the revision is removed and merged, with no re-sort; otherwise nothing changes |
| Relay.VandalNw.SendMessage | src/huggle_ui/vandalnw.cpp:337-348 | empty text or no connection does nothing; otherwise the text goes to the project's channel (an empty entry is added when it has none) and is echoed, made safe unless HTML is allowed |
| Relay.VandalNw.OnIRCChannelMessage | src/huggle_ui/vandalnw.cpp:666-706 | a line to an unknown channel is dropped; a marked line is handled as a command; any other line is shown as chat, made safe unless HTML is allowed |
| Relay.VandalNw.OnIRCChannelCTCP | src/huggle_ui/vandalnw.cpp:708-719 | a CTCP line to a known channel is a command, with no check for the marker |
| Relay.VandalNw.Connect | src/huggle_ui/vandalnw.cpp:156-172 | nothing happens when already connected, in developer mode or with network login off; otherwise a connection is started |
| Relay.VandalNw.Disconnect | src/huggle_ui/vandalnw.cpp:174-179 | the connection is closed and `JoinedMain` is cleared |
| Relay.VandalNw.OnIRCLoggedIn | src/huggle_ui/vandalnw.cpp:726-736 | `JoinedMain` is set, and each site is visited once to join its channel when it starts with '#' |
| Relay.JoinLinesExactly | src/huggle_ui/vandalnw.cpp:731-735 | a JOIN is sent exactly for the site channels that start with '#' |
| Relay.VandalNw.OnDisconnected | src/huggle_ui/vandalnw.cpp:743-748 | losing the connection is shown, and `JoinedMain` is left as it was |
| Relay.VandalNw.OnIRCNetworkFailure | src/huggle_ui/vandalnw.cpp:646-650 | the failure reason is shown, and nothing else changes |

## Left out

- The IRC transport (libircclient) is not modelled. It is a `Network` object that records each send, raw line, connect and disconnect. `IsConnected()` is its `Connected` flag.
- The tray notification for lines that mention our nick (vandalnw.cpp:681-685) and the notification sound (vandalnw.cpp:703-704) are side effects only.
- `Insert` (vandalnw.cpp:557-568) is recorded as a log of what was passed to it: message type and event, without the HTML wording. The display filters that may hide a line, and the grey colouring of info lines, are left out.
- `GenerateWikiDiffLink` only builds display text, so it is not modelled.
- The `Syslog` messages, localised strings and `WriteTest` are not modelled, since they only produce text.
- `refreshUL`, the constructor's widget set-up, the button enabling in `OnConnected`/`OnDisconnected`, and the join/part callbacks that only refresh the user list are UI only.
- `OnGood`, `OnSuspicious`, `OnWarning` and `OnRevert` (vandalnw.cpp:537-555) only forward to `Good`, `SuspiciousWikiEdit`, `WarningSent` and `Rollback`. They are not modelled separately.
- `Generic::HtmlEncode` and `QUrl::toPercentEncoding` are the relay's `HtmlEncode` and `PercentEncode` function parameters; what they compute is not part of this model. `Sanitiser.MarkupOnlyFromAllowedTags` assumes, rather than proves, that the encoder writes no '<'.
- The edit queue (`MainWindow::HuggleMain->Queue1`) is a map from revision id and site to edit, plus a log of the delete and sort requests. What the queue does with those requests is not modelled.
- The null checks on `MainWindow::HuggleMain` in `ProcessRollback` are taken as passing.
- `WikiUser::SetBadnessScore` is an assignment here; any side effects it has elsewhere are not modelled.
- QtString.ParseDecimal: reads an optional '-' and decimal digits. Other inputs read as 0, as Qt's `toInt` does on failure. Leading '+', surrounding spaces and overflow are not modelled.
- QtString.ParseDecimal: the widths of `toInt` (GOOD/ROLLBACK/SUSPICIOUS), `toLongLong` and `toLong` (SCORED) are not modelled. Neither is the `int` truncation when a score is stored in a `RescoreItem` (vandalnw.cpp:575).
- QtString.ToLower: lowers ASCII letters only, which is enough for finding "bot" in a nick.
- Pending.Trim: the cache size (`SystemConfig_CacheHAN`, compared at vandalnw.cpp:470, 486, 502 and 526) is taken as a number of at least 0. The source does not check this. With a negative setting, `while (count() > C) removeAt(0)` would never end once the list is empty, and this model does not capture that hang.
- Relay.VandalNw.MergeScore: edit scores and user badness are unbounded integers; overflow of the source's fixed-width `+=` (the peer-supplied score at vandalnw.cpp:520 and 324, `+= 600` for SUSPICIOUS, and the ±200 badness changes) is not modelled, so repeated large SCORED values cannot wrap here.
- Relay.VandalNw.WarningSent: the level is a `byte_ht`, stated as a precondition `0 <= level < 256`.
- Relay.VandalNw.OnIRCLoggedIn: iterates over the sites in an order the model leaves open, one JOIN per site, since `QHash::values()` order is unspecified.
- The quit message passed to `Disconnect` is not modelled.
