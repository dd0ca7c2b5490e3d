# Authman: a verified model

Authman is an authentication and limbo service for Minecraft networks, written in Go. This project models
the parts of it that carry state, loops or recursion, and proves what they promise over all inputs, all
runs and all interleavings.

Each component has the same shape. Go code that updates fields, maps or buffers is a class or a method
with loops, and its `ensures` ties the new state to a specification function or predicate. The lemmas are
about that specification. Go maps are iterated in an arbitrary order. Library calls (case folding, number,
colour, URL, IP and key parsing) are function parameters about which nothing is assumed.

- **MiniMessage** (`MiniMessageScanner`, `Parser`, `Void`, `Printer`, `Color`, `Shade`, `Renderer`, `Transform`, `Meaning`,
  `Style`, `StyledText`, `Rainbow`, `RainbowText`, `RainbowBound`).
  The two quote scanners are compared on one quote automaton. The parser loses no character, ends on every
  input although rendering calls it again, and inverts a printer. Rendering keeps the text and gives every rune
  the style that the tags around it say, down to the exact colour under gradients and rainbows. Colour arithmetic is
  real-valued and comes to whole-number formulas; without literal tags every colour is valid.
- **Route pool** (`RoutePool`, `RoutePoolRuns`, `RoutePoolCooldown`). Weighted round robin with cooldowns; a pool with
  one usable route never runs dry, and a failed route rests exactly as long as its error says.
- **Vote** (`Vote`). The result of two nested folds over maps is one ballot whatever the iteration order.
- **Download and refresh queue** (`Download`, `DownloadVerdicts`, `RefreshQueue`). The resume loop against an arbitrary
  server, and against one that follows RFC 9110; the coalescing queue as a step system.
- **Event hub, keyed mutex, recovery key, rate limiter** (`EventHub`, `EventHubReplies`, `KeyedLocks`, `RecoveryKey`,
  `RecoveryDownloads`, `RecoveryCredentials`, `RateLimiter`). Step systems in which any number of threads interleave.
- **Dialog documents** (`Dialog`, `DialogMeaning`, `DialogAcceptance`, `DialogDefaults`, `DialogConversion`). Which
  documents are accepted, what an accepted, built-in or converted document guarantees to the player, and which legacy
  documents are accepted.
- **PROXY protocol** (`ProxyProtocol`, `ProxyPolicy`). Sections 2.1 and 2.2 of the HAProxy PROXY protocol specification:
  exact consumption, readers that invert printers, and the outcome of each policy.
- **Blueprint preview** (`Blueprint`, `Schematic`, `SchematicData`). Bit-index decoding with int32 wrap-around, bounding
  box and counting, and the schematic loader that makes every previewed world, from the read NBT on.

## Where the code is not what one would expect

The model follows the code in each of these; the named lemmas show the input and the exact condition.

Inputs that callers in the repository can supply:

- A fallback translation with a key and nothing else (`<lang_or:key>`) slices past its arguments and panics;
  `limbo/text.go` turns that into an error, `Parse` itself does not. Nothing else panics
  (`Meaning.ParsePanics`, `Meaning.ShortFallbackPanics`).
- A reversed rainbow over a tag that is rendered literally paints more runes than it counted and reaches negative
  indexes, for which most colours have a channel outside 0 to 255 (`Rainbows.ReversedRainbowOverflows`; exactly
  when, `Colors.RainbowIsValidIff`; how many runes too many, `RainbowBound.ReversedRunesAreValidIff`; the text,
  `RainbowText.RainbowTextReads`). Without literal tags it cannot happen (`Rainbows.ColorsAreValid`).
- The preview skips palette id 0, whatever its name. A schematic of stone and air whose palette starts with stone is
  previewed as one block of air (`Schematic.StoneIsDropped`); exactly the blocks that are not air are listed if and only
  if, among the ids in use, 0 stands for air and no other does (`Schematic.PreviewIsRightIff`). Sections repeat palette
  entry 0 outside the schematic, so they are air there only if that entry is (`Schematic.OutsideIsAirIff`).
- A palette that gives two states one id loads as either of them, as the Go map is iterated
  (`SchematicData.TwoStatesOneId`; exactly when, `SchematicData.PaletteIsUniqueIff`).
- A palette id of 2^31 - 1 makes the loader ask for a palette of negative length and panic (`Schematic.LastIdPanics`).
  Apart from running out of memory, nothing else in `buildWorld` panics (`Schematic.BuildWorld`).
- A password is encrypted behind the unlock of the recovery key. A factory reset in between leaves a credential under the
  replaced key, whose private key is lost unless it was downloaded before (`RecoveryCredentials.ReplacedKeyIsUsed`,
  `RecoveryCredentials.LostForever`; exactly when, `RecoveryCredentials.EncryptedUnderStoredKeyIff`).
- A destroying save that stores its value but reports an error loses the private key: the download answers with the
  error, and the key is no longer stored (`RecoveryDownloads.DownloadReturns`).
- A forced refresh that is requested while an unforced one of the same source runs is answered as accepted, and
  its force is dropped (`RefreshQueue.ForceIsDropped`; exactly when, `RefreshQueue.AcceptedIsServedIff`).
- The download checks its size limit after a copy but not on status 416, so a file can be one byte too long
  (`Download.LimitMissedByOneByte`; `Download.AttemptAccounts` has the exact condition).
- Without a validator any bytes that a 206 at the right offset carries complete the file
  (`Download.WithoutValidatorAnyTailIsAccepted`). A response that starts the file anew without a validator leaves
  the old one in place, so that two versions can be spliced by an otherwise honest server
  (`Download.BareRestartIsSpliced`; exactly when, `Download.RestartIsFiledIff`). With strong validators on such
  responses no splice is possible (`Download.HonestAttempt`, `Download.DownloadURL`).
- A span as long as the limiter's window admits up to 2 * requests - 1 requests, and no more; every limit and every
  window of at least two nanoseconds reaches that (`RateLimiter.AdmissionsAreBounded`, `RateLimiter.TheBoundIsMet`).
- Eight messages that arrive between the registration of a websocket and its own first message block that
  connection for good (`EventHub.ConnectionIsStuckIff`, `EventHub.StuckForever`, `EventHub.EightBroadcastsBlock`).

Conditions that the functions do not check themselves but that all callers in the repository meet:

- A request whose key is already in the table hides the request that holds the entry (`EventHub.WaiterIsLostIff`,
  `EventHub.GuardIsExact`). Request ids are random (core/internal/server/player_activity.go:271), and unique ids
  meet the guard (`EventHub.UniqueRequestsAreFresh`).
- Two node ids can share request keys exactly when one continues the other behind a NUL
  (`EventHub.KeysCollideIff`). The registry's ids are `node-` and a number (core/internal/node/registry.go:88).
- Conversion of a legacy document for a screen that does not exist gives a password field that may be hidden; on the
  four screens it always works (`DialogMeaning.ConvertedDialogWorks`). Documents are converted for those four only
  (internal/playermsg/playermsg.go:69-71).
- Block coordinates are int32: entries collide exactly when their places agree modulo 2^28 chunks
  (`Blueprint.CoordinatesCollideIff`), and a side of 2^31 blocks or more is reported wrapped
  (`Blueprint.SidesAreReportedIff`, `Blueprint.WideWorldOverflows`). Previewed worlds come from schematics with int16
  sides, where neither happens: the reported numbers are right (`Schematic.ReportedNumbersFit`).
- The loader's loops would index with a negative int32 after 2^31 ids (`Schematic.FillWorld`). There are never that
  many: every id takes at least one byte (`SchematicData.DecodedFit`), and an NBT byte array is shorter than 2^31, so
  sides that ask for more are rejected (`Schematic.BuildWorld`).

## Model

| member | source | states |
|---|---|---|
| Scanner.FindTagEnd | limbo/minimessage/minimessage.go:126-154 | the loop returns the position of the tag end of the rest of the input, or a negative number; TagEndIsFirst says which `>` that is |
| Scanner.SplitArguments | limbo/minimessage/minimessage.go:176-217 | the loop computes the argument list or fails; SplitFailsIffInsideQuote and SplitInvertsPrint say when and which |
| Scanner.TagEndIsFirst | limbo/minimessage/minimessage.go:126-154 | the end found is exactly the first `>` the quote automaton sees outside quotes, and none is found only when there is none |
| Scanner.SplitFailsIffInsideQuote | limbo/minimessage/minimessage.go:176-217 | an unterminated quote is reported if and only if the text ends inside quotes |
| Scanner.NeutralEnds | limbo/minimessage/minimessage.go:156-174 | the white space and slashes stripped from a tag never change whether it ends outside quotes |
| Scanner.SplitLengths | limbo/minimessage/minimessage.go:176-217 | there is at least one argument, and joined by colons the arguments are no longer than the text they came from |
| Scanner.SplitInvertsPrint | limbo/minimessage/minimessage.go:176-217 | splitting undoes the quoting printer for every non-empty argument list and either quote, and the tag scanner skips over what was printed |
| Parser.ReadMove | limbo/minimessage/minimessage.go:69-108 | one turn of the loop always advances, and does what the specification does on the rest of the input |
| Parser.ParseNodes | limbo/minimessage/minimessage.go:58-124 | the position-based loop returns the nodes and the rest of the suffix-based recursive parser, and never moves back |
| Parser.ParseChildren | limbo/minimessage/minimessage.go:109-120 | reading children agrees with the recursive parser; tags that take none consume nothing |
| Parser.TopLevelReadsEverything | limbo/minimessage/minimessage.go:18-25 | the top-level call consumes the whole input |
| Parser.RestIsSuffix | limbo/minimessage/minimessage.go:58-124 | what a call leaves unread is a suffix of what it was given |
| Parser.ScannersAgree | limbo/minimessage/minimessage.go:126-217 | whenever the tag scanner finds an end, splitting the trimmed and slash-stripped contents succeeds |
| Parser.ArgumentsFitInTheTag | limbo/minimessage/minimessage.go:156-174 | a tag's joined arguments are strictly shorter than the tag text, which is kept as its literal |
| Parser.PlainSpelling | limbo/minimessage/minimessage.go:69-79 | text without backslashes spells only itself, so for such input the spelling below is plain concatenation |
| Parser.Lossless | limbo/minimessage/minimessage.go:58-124 | from any position and waiting for any closing tag, nodes, closing tags and the rest spell exactly the input |
| Parser.ParseIsLossless | limbo/minimessage/minimessage.go:58-124 | text, literals and matched closing tags of the parsed tree, read in order, are the whole input up to escaping backslashes |
| VoidTags.VoidIff | limbo/minimessage/minimessage.go:109-112 | a tag is read without children if and only if its name is one of those that never have any, or its text ends in a slash and white space |
| VoidTags.SlashedTagReads | limbo/minimessage/minimessage.go:94-113 | `<text/>` is read as one element without children, with the name and arguments of the text, and what follows belongs to the list around it |
| VoidTags.OtherCloseIsText | limbo/minimessage/minimessage.go:100-107 | a closing tag that the list does not wait for is text |
| Printer.ParseInvertsPrint | limbo/minimessage/minimessage.go:58-124 | parsing the printed form of any canonical, named tree gives that tree back |
| Printer.EscapedTextIsText | limbo/minimessage/minimessage.go:69-79 | text with `<` and backslash escaped parses to one text node holding it |
| Printer.ParsedIsCanonical | limbo/minimessage/minimessage.go:58-124 | every parsed tree is canonical, so the inverse applies to what the parser produces |
| Printer.ReparseIsStable | limbo/minimessage/minimessage.go:58-124 | printing a parsed tree and parsing again changes nothing |
| Printer.QuotedTagIsFaithful | limbo/minimessage/minimessage.go:156-217 | every lower-case name and argument list has a tag text that parses to exactly them |
| Printer.PlainTagIsFaithful | limbo/minimessage/minimessage.go:126-217 | the unquoted tag text of a lower-case name and arguments without quotes, colons and `>` parses to exactly them, if it has no white space or slash at its ends |
| Printer.PlainCloseTagReads | limbo/minimessage/minimessage.go:69-108 | the unquoted closing tag of such a name ends the list that waits for it |
| Colors.GradientStaysOnTheColors | limbo/minimessage/minimessage.go:576-590 | the first rune has the first colour, the last the last, the index is in range, and every channel lies between its two neighbours |
| Colors.GradientPastEnd | limbo/minimessage/minimessage.go:576-590 | beyond the counted runes the gradient stays at its last colour |
| Colors.GradientMovesForward | limbo/minimessage/minimessage.go:576-590 | the position along the colours never decreases from one rune to a later one |
| Colors.MixStaysBetween | limbo/minimessage/minimessage.go:619-626 | interpolation stays between its ends and starts at the first |
| Colors.RainbowIsValidIff | limbo/minimessage/minimessage.go:610-650 | a rainbow colour has its channels between 0 and 255 exactly when its index is not negative or it lies less than a 255th of a sector before a sector boundary |
| Colors.PhaseInRange | limbo/minimessage/minimessage.go:592-608 | the transition phase is clamped to -1..1 whatever the arguments |
| Colors.TransitionInRange | limbo/minimessage/minimessage.go:592-608 | the colour index is the rounded phase without any clamping being needed, with the two ends at the first and last colour |
| Shades.GradientIsBlended | limbo/minimessage/minimessage.go:576-626 | the exact colour of every rune: with n colours, rune index of total lies index * (n - 1) parts of total - 1 along them, and each channel is blended in that proportion from the two around it and rounded down |
| Shades.RainbowIsWheel | limbo/minimessage/minimessage.go:610-650 | the exact colour of every rune: rune index of total lies 6 * index parts of total along the six sectors of the colour wheel, red at the start; behind the start the channels leave their range by the same share |
| Shades.PhaseIsLastNumber | limbo/minimessage/minimessage.go:592-600 | the last argument that reads as a number is the phase, and numbers beyond -1 and 1 count as those |
| Shades.NoNumberNoPhase | limbo/minimessage/minimessage.go:592-600 | without such an argument the phase is 0 |
| Renderer.ParseShrinks | limbo/minimessage/minimessage.go:18-35 | a parsed tree hands only strictly shorter texts back to the parser, so parse and render end on every input |
| Renderer.JoinedTailFits | limbo/minimessage/minimessage.go:368-405 | hover and translation texts are shorter than the tag's share of the termination measure |
| Renderer.EntityNameFits | limbo/minimessage/minimessage.go:428-446 | so is the name that an entity hover splits out and parses |
| Transforms.CountVisible | limbo/minimessage/minimessage.go:486-499 | the loop computes the visible-rune count that PaintBound compares with the runes painted |
| Transforms.EmitText | limbo/minimessage/minimessage.go:455-470 | updating the shared index rune by rune gives the components and the index of the value-passing renderer |
| Transforms.EmitNodes | limbo/minimessage/minimessage.go:241-260 | threading one mutable transform through a list of nodes refines the value-passing renderer, panics included |
| Transforms.EmitTag | limbo/minimessage/minimessage.go:262-320 | the same for a tag: nested transforms have their own index, styles share the outer one; StyledTexts.NodesCarry says which style and colour that gives |
| Meaning.RenderKeepsText | limbo/minimessage/minimessage.go:241-320 | for every tree, style and transform, the plain text of the components is the in-order text of the tree |
| Meaning.ParseKeepsText | limbo/minimessage/minimessage.go:18-25 | what a parse shows is the text of the tree it built |
| Meaning.EscapedStringIsShown | limbo/minimessage/minimessage.go:69-79 | a string with `<` and backslash escaped is rendered as exactly that string, in one plain component |
| Meaning.PaintBound | limbo/minimessage/minimessage.go:455-499 | without literal tags a tree never paints more runes than were counted for it |
| Meaning.StyledTextCounts | limbo/minimessage/minimessage.go:486-499 | for styled text the count is the number of its runes |
| Meaning.StyledTextPaints | limbo/minimessage/minimessage.go:455-470 | styled text is painted one component a rune, in order, in consecutive colours, and the index ends behind it |
| Meaning.GradientPaintsItsText | limbo/minimessage/minimessage.go:271-283 | a gradient over styled text shows that text from first to last colour, each rune between two neighbouring colours, and leaves the outer index alone |
| Styles.BrushPaints | limbo/minimessage/minimessage.go:271-317 | a gradient colours by the colours among its arguments, or white and aqua when there are fewer than two; a rainbow runs backwards if and only if an argument holds `!` |
| Styles.TransitionMeans | limbo/minimessage/minimessage.go:284-293 | a transition changes the colour alone, and only when its arguments name one |
| Styles.ApplyMeans | limbo/minimessage/minimessage.go:322-388 | what an accepted style tag makes of a style is what its text says: a colour, a decoration on or off, a font, an insertion, a click or a hover, and nothing else changes |
| StyledTexts.AcceptedIff | limbo/minimessage/minimessage.go:322-388 | a style tag is accepted if and only if its text is in order, whatever the style |
| StyledTexts.NodesCarry | limbo/minimessage/minimessage.go:241-320 | every rune shown has the colour, decorations, font, insertion, click and hover of the innermost tag around it that says something of them, nothing said before a reset in its list, and under a gradient or rainbow the exact colour of its place; translations carry their key, arguments and style |
| StyledTexts.ParseCarries | limbo/minimessage/minimessage.go:18-35 | so for whole texts: what a parse shows, piece by piece, is what its tree asks for |
| Rainbows.ColorsAreValid | limbo/minimessage/minimessage.go:262-320 | while rendering meets no literal tag, every component gets a valid colour, under nested gradients and reversed rainbows too, if parsed colours are valid |
| Rainbows.ParsedColorsStayValid | limbo/minimessage/minimessage.go:18-25 | so what a parse shows of such a text has valid colours only |
| Rainbows.ReversedRainbowOverflows | limbo/minimessage/minimessage.go:294-317 | a reversed rainbow over `ab<foo>xyz</foo>` counts five runes and paints seven, the sixth in red 255, green 0, blue 306 |
| RainbowText.RainbowTextReads | limbo/minimessage/minimessage.go:58-124 | `<rainbow:!>ab<foo>xyz</foo></rainbow>` parses to that tree |
| RainbowText.NestedReads | limbo/minimessage/minimessage.go:58-124 | one element inside another, written with unquoted tags and plain text, parses to that tree |
| RainbowBound.ReversedRunesAreValidIff | limbo/minimessage/minimessage.go:610-650 | a reversed rainbow paints a text in valid colours if and only if the text has no more runes than were counted, or the count is 0, 1, 2, 3 or 6, or 1530 times the surplus is below the count |
| Meaning.ParsePanics | limbo/minimessage/minimessage.go:390-405 | parsing panics if and only if rendering reaches a fallback translation with one argument, at any depth of nested texts |
| Meaning.ShortFallbackPanics | limbo/minimessage/minimessage.go:396-401 | such inputs exist for every key and each fallback name |
| RoutePool.Pool.weightedIndexes | core/internal/mojang/routes.go:115-124 | the nested loops list every route index as often as its weight, non-positive weights once |
| RoutePool.Pool.executionOrder | core/internal/mojang/routes.go:111-134 | returns the rotation of the weighted list and advances the cursor by one; OrderCounts and WeightedFairness say what that gives |
| RoutePool.Pool.hasFallbackRoute | core/internal/mojang/routes.go:136-144 | true if and only if another route is enabled and not cooling |
| RoutePool.Pool.recordEvent | core/internal/mojang/routes.go:187-205 | ignores a bad index, else numbers and dates the event and puts it in front of the log, which keeps the newest hundred |
| RoutePool.Pool.markFailure | core/internal/mojang/routes.go:146-179 | the failed route's whole new state and its event, with int64 wrap-around of the doubled cooldown; ExecuteSettles and FailedRouteRests say what that means for later calls |
| RoutePool.Pool.contact | core/internal/mojang/routes.go:91-103 | one contact: the transport is asked once, and success or failure is recorded on this route |
| RoutePool.Pool.Execute | core/internal/mojang/routes.go:70-109 | the whole call refines the recursive specification: new pool, contacted routes in order, and answer |
| RoutePoolRuns.OrderCounts | core/internal/mojang/routes.go:111-134 | every order lists each route exactly its weight in times, so none is missing |
| RoutePoolRuns.WeightedFairness | core/internal/mojang/routes.go:111-134 | from any cursor, over as many calls as the sum of the weights, each route is first exactly its weight in times |
| RoutePoolRuns.CandidatesAreTheUsableRoutes | core/internal/mojang/routes.go:78-90 | the routes a call may contact are exactly the usable ones, each once |
| RoutePoolRuns.ExecuteTriesEveryUsableRoute | core/internal/mojang/routes.go:70-109 | contacts follow the candidates in order and stop at the first answer; a call fails only after every usable route was tried once and failed, with the last error |
| RoutePoolRuns.ExecuteKeepsUsable | core/internal/mojang/routes.go:136-179 | a call never cools or disables the last usable route |
| RoutePoolRuns.ContactsIffUsable | core/internal/mojang/routes.go:70-109 | a call contacts some route if and only if one is usable at entry |
| RoutePoolRuns.PoolNeverRunsDry | core/internal/mojang/routes.go:70-179 | over every run with a nondecreasing clock, once a route is usable every later call contacts one |
| RoutePoolRuns.ExecuteKeepsBooks | core/internal/mojang/routes.go:84-205 | the event log stays gap-free, newest first and bounded; request counts grow by one for exactly the contacted routes; others change at most to the disabled state |
| RoutePoolCooldown.ExecuteSettles | core/internal/mojang/routes.go:84-179 | every contact of a call leaves its route as its answer says: healthy with the failures forgotten, or one failure further with the error kept and, exactly when another route could have been contacted, cooling until now plus the delay; the delay is the configured cooldown or 30 s, doubled for a rate limit, and raised to what the error asks for |
| RoutePoolCooldown.FailedRouteRests | core/internal/mojang/routes.go:84-179 | a route that fails while another could be contacted is contacted by no later call of any run before its delay is over, and is usable from then on; without another it stays usable |
| RoutePoolCooldown.UncontactedRoutes | core/internal/mojang/routes.go:78-90 | an enabled route that is not contacted does not change, and a disabled one is marked when nobody answers |
| RoutePoolCooldown.ExecuteReturns | core/internal/mojang/routes.go:91-109 | a call returns the route that answered, else the error of the last contact, else that there was no route |
| RoutePoolCooldown.ExecuteLogs | core/internal/mojang/routes.go:91-205 | a call on a log of at most a hundred events, as every call keeps it, adds exactly one event for each failure and for each answer of a route that was not well, newest first, and keeps the newest hundred |
| Vote.CollectFamilies | core/internal/server/ip_geo_database.go:128-143 | each family ends with the heaviest, then earliest, of its voting ballots |
| Vote.CountNext | core/internal/server/ip_geo_database.go:151-164 | an arbitrary next family adds its vote and keeps the totals right for the families done |
| Vote.CollectTotals | core/internal/server/ip_geo_database.go:150-164 | the totals are the sums of family weights per value, whatever order the families come in |
| Vote.PickWinner | core/internal/server/ip_geo_database.go:165-175 | the value picked outranks all others, whatever order they come in |
| Vote.Tally | core/internal/server/ip_geo_database.go:122-176 | the whole vote returns the text of the elected ballot, or nothing when nobody votes |
| Vote.WinnerIsElected | core/internal/server/ip_geo_database.go:122-176 | the nested folds find the maximum by total weight, then own weight, then position |
| Vote.OneWinner | core/internal/server/ip_geo_database.go:122-176 | at most one text satisfies that description, so map order cannot matter |
| Vote.MirrorNeverChangesTheWinner | core/internal/server/ip_geo_database.go:128-164 | appending a same-family source of no greater weight, or one without an answer, keeps the winner, both ways |
| Download.CopyResponse | core/internal/server/ip_geo_sources.go:856-935 | the copy loop, with its size limit and two timers, computes the copy whose properties CopyIsAPrefix states |
| Download.CopyIsAPrefix | core/internal/server/ip_geo_sources.go:856-935 | what is copied is a prefix of what was delivered, within the limit, and all of it on success |
| Download.PerformAttempt | core/internal/server/ip_geo_sources.go:692-812 | one turn of the attempt loop, branch by branch, gives the verdict the next lemmas are about |
| Download.AttemptAccounts | core/internal/server/ip_geo_sources.go:692-833 | whatever the server does, file length and offset agree, a success is not empty, retries are bounded, and a success exceeds the limit in exactly one case |
| Download.StoreKeepsOneVersion | core/internal/server/ip_geo_sources.go:744-799 | the bytes an honest response appends, or starts the file with under its validator, continue a prefix of the current version |
| Download.RestartIsFiledIff | core/internal/server/ip_geo_sources.go:717-722 | what starts the file anew is filed under its own version exactly when it carried its validator or the one known before is the same |
| Download.HonestAttempt | core/internal/server/ip_geo_sources.go:692-833 | against a server that follows RFC 9110 and sends a validator whenever the file starts anew, every attempt leaves a prefix of one version, and a success of known length is that whole version |
| Download.LimitMissedByOneByte | core/internal/server/ip_geo_sources.go:728-734 | the one case: 1024 full buffers and a broken read of one byte, followed by a 416, succeed |
| Download.WithoutValidatorAnyTailIsAccepted | core/internal/server/ip_geo_sources.go:703-806 | without a validator any 206 tail at the right offset is spliced in, however many reads it takes |
| Download.BareRestartIsHonest | core/internal/server/ip_geo_sources.go:692-833 | the three answers of the next row break no rule of RFC 9110 |
| Download.BareRestartIsSpliced | core/internal/server/ip_geo_sources.go:717-722 | a server that changes its file and changes it back, and leaves out the validator in between, gets the start of one version joined to the end of the other |
| Download.DownloadURL | core/internal/server/ip_geo_sources.go:673-814 | the whole download makes 1 to 12 requests, returns a file only on success, and never a splice of two versions from an honest server whose logged restarts carried validators |
| DownloadVerdicts.CopySucceedsIff | core/internal/server/ip_geo_sources.go:856-935 | a copy succeeds if and only if its body ends properly, every write is taken within the limit and every progress check finds enough new bytes; it has then all bytes delivered |
| DownloadVerdicts.AttemptVerdict | core/internal/server/ip_geo_sources.go:692-833 | an attempt succeeds if and only if the server says that the file is whole, or a 2xx response whose range fits is read completely into a file that is not empty, not too long and of the announced length, if one was announced; it is repeated exactly after a network error or an incomplete body while attempts are left; the file is then those bytes |
| DownloadVerdicts.CompleteAnswerIsDownloaded | core/internal/server/ip_geo_sources.go:673-814 | a first response that arrives complete is the download, with or without an announced length |
| DownloadVerdicts.FirstVerdictEnds | core/internal/server/ip_geo_sources.go:673-814 | attempts go on exactly while they may be repeated, and the first other verdict is the result of the download |
| RefreshQueue.Queue.queueIPGeoRefresh | core/internal/server/ip_geo_sources.go:1233-1261 | the critical section, with the failed non-blocking send undone, is the specification's enqueue |
| RefreshQueue.Queue.beginIPGeoRefresh | core/internal/server/ip_geo_sources.go:1263-1273 | moves the job from pending to active, or reports that there is none |
| RefreshQueue.StepKeepsInv | core/internal/server/ip_geo_sources.go:1208-1279 | every step of every thread keeps: channel and worker's hand hold each pending id once and nothing else, at most one source is active; begins take the head of the line |
| RefreshQueue.InvHolds | core/internal/server/ip_geo_sources.go:1208-1279 | so it holds in every reachable state |
| RefreshQueue.BeginNeverMisses | core/internal/server/ip_geo_sources.go:1216-1224 | in every interleaving the worker finds its job pending and no source active |
| RefreshQueue.EnqueueAnswers | core/internal/server/ip_geo_sources.go:1233-1261 | exactly when a request is accepted, that an accepted one is pending with its flags or left to the active refresh, and that a refused one changes nothing |
| RefreshQueue.AcceptedIsServedIff | core/internal/server/ip_geo_sources.go:1233-1261 | an accepted request waits for a begin exactly when its source is pending, not active or to be repeated; otherwise nothing changes, and the running refresh covers it exactly when that is forced or the request is not |
| RefreshQueue.ForceIsDropped | core/internal/server/ip_geo_sources.go:1246-1249 | for every source, a run in which an accepted forced request never leads to a forced refresh |
| RefreshQueue.FlagsSurvive | core/internal/server/ip_geo_sources.go:1233-1273 | force and repeat flags accepted into pending reach the next begin of that source, through any run |
| RefreshQueue.BegunFlagsIff | core/internal/server/ip_geo_sources.go:1233-1273 | in every run, a job that begins is forced, or repeats, if and only if it was pending with that flag before or a request that joined it had the flag |
| RefreshQueue.WaitIsBounded | core/internal/server/ip_geo_sources.go:1208-1231 | first in, first out: position p is begun within the next p + 1 begins |
| RateLimiter.Limiter.allow | limbo/rate_limit.go:53-78 | the new table and the answer are those of the specification, cleanup included |
| RateLimiter.Limiter.cleanup | limbo/rate_limit.go:80-86 | deletes exactly the expired entries in any order |
| RateLimiter.CleanupIsInvisible | limbo/rate_limit.go:53-86 | over every run with a nondecreasing clock, decisions equal those of a limiter that never deletes |
| RateLimiter.RunKnows | limbo/rate_limit.go:53-78 | through every run an entry's count is the number admitted in its window, and what that implies for the spans before it stays true |
| RateLimiter.AdmissionsAreBounded | limbo/rate_limit.go:53-78 | over every run any half-open span as long as the window admits at most 2 * requests - 1 requests of one address, and an entry counts the admissions of its window |
| RateLimiter.EveryWindowIsBounded | limbo/rate_limit.go:53-78 | every window that is open at some time of the run admits, over the whole run, at most requests requests |
| RateLimiter.AdmittedIff | limbo/rate_limit.go:53-86 | over every run, cleanups included, a request is admitted if and only if it is among the first `requests` ones of its address in its window; a window opens with the first request behind the last one |
| RateLimiter.TheBoundIsMet | limbo/rate_limit.go:53-78 | for every limit and every window of at least two, a run with 2 * requests - 1 admissions in one such span |
| EventHub.Hub.register | core/internal/server/node_events.go:148-156 | the client joins its node's set with an open, empty channel |
| EventHub.Hub.unregister | core/internal/server/node_events.go:156-165 | the client leaves the set, and an empty set leaves the table |
| EventHub.Hub.broadcast | core/internal/server/node_events.go:168-180 | the message reaches exactly the clients with room, in any order, and their number is returned |
| EventHub.Hub.startRequest | core/internal/server/node_events.go:192-212 | the request is pending if and only if a client took the message |
| EventHub.StepKeepsClientsOpen | core/internal/server/node_events.go:148-180 | every step keeps: a client in the table has an open channel |
| EventHub.NoSendAfterClose | core/internal/server/node_events.go:148-224 | in every interleaving no send goes to a closed channel and no channel is closed twice |
| EventHub.KeyIsInjective | core/internal/server/node_events.go:184-186 | for NUL-free node ids equal keys mean equal node and request ids |
| EventHub.KeysCollideIff | core/internal/server/node_events.go:184-186 | two node ids have requests with one key exactly when they are the same or one continues the other behind a NUL |
| EventHub.StepKeepsReplies | core/internal/server/node_events.go:188-243 | every step keeps: a reply in a channel, in a resolver's hand or returned was sent under the key of the request that gets it |
| EventHub.RepliesComeFromTheirResolve | core/internal/server/node_events.go:188-243 | in every interleaving a reply that a request returns was resolved under its key: for that node and request, unless one node id continues the other behind a NUL; ReplyIsReturned says that replies are returned |
| EventHub.PendingDrains | core/internal/server/node_events.go:207-224 | with nothing in flight the pending table is empty, even when request ids were reused |
| EventHubReplies.DeliveryReaches | core/internal/server/node_events.go:168-180 | a target with room gets the message behind the ones it has, and nothing else changes |
| EventHubReplies.RequestWaitsIff | core/internal/server/node_events.go:188-212 | a request waits under its key if and only if its ids are there and a client of its node has room; otherwise it returns nothing at once |
| EventHubReplies.ReplyStays | core/internal/server/node_events.go:218-243 | in every run, a reply in the channel of a waiting request stays there until the request takes it or gives up |
| EventHubReplies.ReplyIsReturned | core/internal/server/node_events.go:218-243 | and when it takes it, that reply is its result, whatever follows |
| EventHubReplies.NothingWithoutReply | core/internal/server/node_events.go:218-224 | a request whose channel is empty goes on waiting or gives up with nothing |
| EventHubReplies.RequestIsAnswered | core/internal/server/node_events.go:148-243 | for every node id and request id that is not empty and every payload, a run of register, request, resolve, receive and clean-up returns that payload and leaves no entry |
| EventHub.WaiterIsLostIff | core/internal/server/node_events.go:192-217 | a step makes a waiting request unreachable exactly when it asks with its key, delivered or refused, or cleans up another request with its key |
| EventHub.GuardIsExact | core/internal/server/node_events.go:192-217 | while every request in flight is found, exactly a request whose key is already in the table ends that |
| EventHub.WaitersAreFound | core/internal/server/node_events.go:188-243 | a run finds its requests in flight all along if and only if none is made while its key is in the table |
| EventHub.UniqueRequestsAreFresh | core/internal/server/node_events.go:188-198 | unique request ids meet that condition |
| EventHub.DuplicateIdsLoseAWaiter | core/internal/server/node_events.go:192-217 | a second request with the key of a waiting one hides it at once, whether or not it is delivered, and its clean-up leaves no entry |
| EventHub.DuplicateIdsCanWait | core/internal/server/node_events.go:188-212 | two waiting requests with one key are reachable |
| EventHub.ConnectionIsStuckIff | core/internal/server/node_events.go:273-277 | a connection about to send its own first message is blocked exactly when eight messages were delivered since its registration |
| EventHub.StuckForever | core/internal/server/node_events.go:273-312 | a blocked connection stays blocked, with the same messages, through every run |
| EventHub.EightBroadcastsBlock | core/internal/server/node_events.go:168-180 | eight broadcasts right after a registration reach that state |
| KeyedLocks.KeyedMutex.find | core/internal/server/server.go:76-86 | the section under `mu` returns the key's mutex and makes it at most once |
| KeyedLocks.StepKeepsInv | core/internal/server/server.go:76-89 | every step keeps: one mutex a key, one holder a mutex, locked exactly while held; no unlock is fatal |
| KeyedLocks.SectionsNeverOverlap | core/internal/server/server.go:69-89 | in every interleaving two threads inside their sections hold different keys and different mutexes |
| KeyedLocks.OnlyTheSameKeyBlocks | core/internal/server/server.go:69-89 | a thread that cannot proceed waits for a thread inside a section of the same key |
| RecoveryKey.KeyServer.ensurePasswordRecoveryKey | core/internal/server/password_recovery_key.go:137-159 | returns the stored state or makes and stores one; an uninterrupted run of the section's calls |
| RecoveryKey.KeyServer.ensurePasswordRecoveryKeyLocked | core/internal/server/password_recovery_key.go:143-159 | ends the first calls of a section, with the state it goes on with or an error |
| RecoveryKey.KeyServer.handleAdminDownloadPasswordRecoveryPrivateKey | core/internal/server/password_recovery_key.go:50-85 | the handler under its lock is an uninterrupted run of the download section for every answer of the store; DownloadReturns says what it returns |
| RecoveryKey.KeyServer.handleAdminSystemFactoryReset | core/internal/server/password_recovery_key.go:102-123 | the same for the factory reset |
| RecoveryKey.CallKeepsKeys | core/internal/server/password_recovery_key.go:56-84 | one call of a section, failing or not, keeps: the stored key was made and not given, given keys are distinct |
| RecoveryKey.InvHolds | core/internal/server/password_recovery_key.go:50-159 | that invariant holds in every interleaving, and given keys are never taken back |
| RecoveryKey.EachKeyIsGivenOnce | core/internal/server/password_recovery_key.go:50-85 | in every interleaving of ensure, download, reset and other lock users, each private key is returned by at most one download and is then no longer stored |
| RecoveryKey.GivenKeysAreGone | core/internal/server/password_recovery_key.go:62-74 | a key given at some time is never stored or given again in any continuation |
| RecoveryKey.ShownStateIsStored | core/internal/server/password_recovery_key.go:125-159 | a state that a section returns is the stored one until it unlocks; EncryptedUnderStoredKeyIff is about the time behind |
| RecoveryKey.SectionIsAtomic | core/internal/server/password_recovery_key.go:56-57 | between lock and unlock a section sees only its own writes, whatever other threads do |
| RecoveryKey.FinishedSectionIsAHandlerCall | core/internal/server/password_recovery_key.go:50-159 | a finished section had the effect and result of one uninterrupted handler call |
| RecoveryDownloads.DownloadReturns | core/internal/server/password_recovery_key.go:50-85 | a download gives exactly the private key of the stored or newly made state, with its fingerprint, if and only if there is one and every call succeeds, says that the key was destroyed if and only if there is none, and leaves the state without it |
| RecoveryDownloads.EnsureReturns | core/internal/server/password_recovery_key.go:137-159 | an ensure returns the usable stored state, else a new one that it stores |
| RecoveryDownloads.ResetReturns | core/internal/server/password_recovery_key.go:102-123 | a reset stores and returns a new key whatever was stored, if and only if wiping, making and saving succeed |
| RecoveryDownloads.DestroyedKeyIsGiven | core/internal/server/password_recovery_key.go:62-84 | in every interleaving, a destroying save that succeeds ends its download with the key that was stored until then, which counts as given ever after |
| RecoveryDownloads.FinishedDownloadReturns | core/internal/server/password_recovery_key.go:50-85 | a finished download section, whatever ran beside it, returned what the answers to its own calls say |
| RecoveryCredentials.EncryptedUnderStoredKeyIff | core/internal/server/password_recovery_key.go:125-141 | in every interleaving, a password is encrypted under the key stored at that time if and only if no section stored a generated key since the unlock; downloads in between do no harm |
| RecoveryCredentials.LostForever | core/internal/server/password_recovery_key.go:50-123 | a private key that was neither given nor is stored, and that no section is about to store, is never stored or given again |
| RecoveryCredentials.ReplacedKeyIsUsed | core/internal/server/password_recovery_key.go:102-135 | for every usable stored key, a run with a factory reset behind the unlock ends with a credential under the replaced key, which is lost unless it was given before |
| Dialog.CheckIDs | internal/playermsg/dialogdoc.go:365-376 | an id is reported exactly when it is malformed or an earlier element has it |
| Dialog.CheckInputs | internal/playermsg/dialogdoc.go:423-546 | the input loop reports the union of each input's errors, duplicate keys included |
| Dialog.CountRoles | internal/playermsg/dialogdoc.go:424-472 | the map counts how often each role is bound |
| Dialog.CheckRoles | internal/playermsg/dialogdoc.go:607-616 | the two role loops, one over a map in any order, report exactly the required roles not bound once and the roles bound twice |
| Dialog.CheckBodies | internal/playermsg/dialogdoc.go:381-421 | the body loop reports each body's errors |
| Dialog.CheckButtons | internal/playermsg/dialogdoc.go:548-598 | the button loop reports each button's errors and counts submits and client actions |
| Dialog.ValidateDialog | internal/playermsg/dialogdoc.go:338-618 | the validator's error paths are those of the specification the next rows are about |
| DialogMeaning.AcceptedDialogWorks | internal/playermsg/dialogdoc.go:548-616 | a document without errors can be submitted in every state, binds every required role exactly once and no other, with inputs visible whenever they are needed |
| DialogAcceptance.AcceptedIff | internal/playermsg/dialogdoc.go:338-618 | a document has no errors if and only if it is acceptable: header, texts, visibilities, widths, ranges, options, items, bindings and buttons each within their bounds, ids and keys different, a button that submits, no wait for a response when a button acts on the client alone, and every role of the screen bound once |
| DialogAcceptance.InputIsGoodIff | internal/playermsg/dialogdoc.go:423-546 | the same for one input: its texts, width, visibility, role and what its kind asks for |
| DialogAcceptance.ButtonIsGoodIff | internal/playermsg/dialogdoc.go:548-598 | the same for one button: submit in every state, http or https links, copied text, and screens that can be opened from here |
| DialogMeaning.AcceptedIDsAreUnique | internal/playermsg/dialogdoc.go:365-376 | all elements of an accepted document have different ids |
| DialogMeaning.AcceptedKeysAreUnique | internal/playermsg/dialogdoc.go:423-440 | its input keys are well formed and pairwise different |
| DialogMeaning.AcceptedRoleKey | internal/playermsg/dialogdoc.go:141-148 | the key looked up for a role is that of the one input bound to it |
| DialogMeaning.CountedRole | internal/playermsg/dialogdoc.go:607-616 | a count of one means a single binding and a count of zero none |
| DialogDefaults.BuiltInDialogIsAccepted | internal/playermsg/dialogdoc.go:176-244 | on each of the four screens the validator accepts the built-in document, for every wording that fits the text limits |
| DialogMeaning.NormalizeLegacy | internal/playermsg/dialogdoc.go:691-723 | the in-place edits of the legacy branch give the converted document |
| DialogMeaning.ConversionKeepsInput | internal/playermsg/dialogdoc.go:705-715 | an input's role, kind, visibility, key and id survive conversion |
| DialogMeaning.ConvertedDialogWorks | internal/playermsg/dialogdoc.go:691-723 | a converted document can be submitted and binds its roles, for every legacy input, if and only if the screen is one of the four |
| DialogConversion.ConvertedIsAcceptedIff | internal/playermsg/dialogdoc.go:338-723 | on the four screens, with built-in wording that fits, a converted document passes the validator if and only if the legacy document meets conditions on its texts, widths, visibilities, number of blocks and block ids, which must differ from each other and from the screen's input and button ids |
| ProxyProtocol.Stream.ReadLine | limbo/proxy_protocol.go:234-237 | takes exactly the first line, or everything when there is no newline |
| ProxyProtocol.Stream.ReadFull | limbo/proxy_protocol.go:293-296 | takes exactly n bytes, or everything when there are fewer |
| ProxyProtocol.ReadV1Header | limbo/proxy_protocol.go:225-268 | result and exact consumption of the version 1 reader |
| ProxyProtocol.ReadV2Header | limbo/proxy_protocol.go:270-336 | result and exact consumption of the version 2 reader |
| ProxyProtocol.Conn.ensureHeader | limbo/proxy_protocol.go:172-208 | the header is read once, the outcome never changes after, and the stream continues right behind it; ErrorIs says which outcome it is |
| ProxyProtocol.Conn.RemoteAddr | limbo/proxy_protocol.go:140-146 | the address depends on what was received and the policy alone, not on when it is asked for |
| ProxyProtocol.Conn.LocalAddr | limbo/proxy_protocol.go:148-154 | the same for the local address |
| ProxyProtocol.UntrustedHeaderIsIgnored | limbo/proxy_protocol.go:182-208 | an untrusted peer keeps its own addresses whatever it sends, and its header is an error |
| ProxyProtocol.TrustedHeaderIsBelieved | limbo/proxy_protocol.go:182-208 | a trusted peer's source address is used exactly when its header is well formed and has one |
| ProxyProtocol.NoHeaderReadsNothing | limbo/proxy_protocol.go:210-277 | no header is reported exactly when the first byte or a full-length prefix does not match, and then nothing is consumed |
| ProxyPolicy.HeaderIsRead | limbo/proxy_protocol.go:210-336 | every stream is headerless, has a well-formed header or neither, by conditions on its bytes; the reader tells which, and consumes exactly the header |
| ProxyPolicy.ErrorIs | limbo/proxy_protocol.go:172-208 | a missing header is an error if and only if one is required, a well-formed one if and only if the peer is not trusted, anything else always |
| ProxyPolicy.V1AddressesAre | limbo/proxy_protocol.go:172-268 | a trusted version 1 header gives the connection the two addresses it names, or leaves it its own for UNKNOWN |
| ProxyPolicy.V2AddressesAre | limbo/proxy_protocol.go:172-336 | a trusted version 2 header gives the addresses of its payload, or leaves the connection its own for LOCAL and unspecified families |
| ProxyProtocol.V2RoundTrip | limbo/proxy_protocol.go:270-336 | a printed version 2 header reads back its addresses and leaves exactly what follows its 16 + length bytes, TLVs skipped |
| ProxyProtocol.V2WithoutAddresses | limbo/proxy_protocol.go:297-335 | a LOCAL command or unspecified family is a header without addresses, whatever its payload |
| ProxyProtocol.V2AcceptsOnlyPrinted | limbo/proxy_protocol.go:270-336 | conversely, bytes that yield addresses are the printed form of those addresses with some TLVs |
| ProxyProtocol.FieldsInvertJoin | limbo/proxy_protocol.go:245-250 | splitting into fields undoes joining them with spaces |
| ProxyProtocol.V1RoundTrip | limbo/proxy_protocol.go:225-268 | a printed version 1 line of at most 107 bytes reads back its addresses and leaves exactly what follows CRLF |
| Blueprint.ScanEntry | core/internal/server/limbo_blueprints.go:368-406 | one entry: id 0 changes nothing, any other id widens the box, is counted and is listed with its name |
| Blueprint.MakePreview | core/internal/server/limbo_blueprints.go:352-422 | whatever order chunks come in, the preview lists every entry with an id other than 0 exactly once, counts them, and its bounds are the tightest box |
| Blueprint.TightGrows | core/internal/server/limbo_blueprints.go:378-400 | widening by one block keeps the box tight |
| Blueprint.CoordinatesCollideIff | core/internal/server/limbo_blueprints.go:372-377 | two entries get the same coordinates if and only if their index and their place modulo 2^28 chunks agree |
| Blueprint.BlocksFitTheBox | core/internal/server/limbo_blueprints.go:361-421 | with sections at different places coordinates are pairwise different, and there are at most width * height * length blocks |
| Blueprint.SidesAreReportedIff | core/internal/server/limbo_blueprints.go:410-414 | the reported sides are those of the box if and only if all are below 2^31 |
| Blueprint.WideWorldOverflows | core/internal/server/limbo_blueprints.go:410-414 | a world of two blocks whose reported volume is negative |
| Blueprint.OrderDoesNotMatter | core/internal/server/limbo_blueprints.go:366-409 | two walks of one world agree on blocks, count and bounds |
| Schematic.SetBlock | limbo/world/schematic/load.go:185-225 | sets the block at its place and no other, and keeps sections whole, ordered and in their chunk |
| SchematicData.AirIsNamedIff | limbo/world/schematic/load.go:131-151 | a palette key is named air exactly when it says `air` or `minecraft:air`, with or without properties |
| SchematicData.NamesAreStable | limbo/world/schematic/load.go:131-151 | parsing a parsed name changes nothing |
| SchematicData.DecodePalette | limbo/world/schematic/load.go:107-129 | succeeds exactly when no id is negative, is 2^31 - 1 or leaves a gap below it, panics exactly when an id is 2^31 - 1 and none negative, and names every entry by a state with its id |
| SchematicData.PaletteIsUniqueIff | limbo/world/schematic/load.go:119-123 | the names do not depend on the order of the map if and only if no two states share an id but not a name |
| SchematicData.TwoStatesOneId | limbo/world/schematic/load.go:119-123 | stone and dirt with id 0 can load as either |
| SchematicData.ReadSchematicVarInt | limbo/world/schematic/load.go:169-183 | the loop reads the number that the recursive specification reads, and ends behind it |
| SchematicData.DecodeBlockData | limbo/world/schematic/load.go:153-167 | the loop gives the decoded ids, or an error when there are none or not as many as expected |
| SchematicData.DecodedFit | limbo/world/schematic/load.go:153-183 | every id takes one to five bytes and is below 2^32 |
| SchematicData.DecodeInvertsPrint | limbo/world/schematic/load.go:153-183 | decoding undoes the shortest spelling of every list of ids below 2^32 |
| SchematicData.DecodableIff | limbo/world/schematic/load.go:153-183 | data is decodable if and only if its last byte ends a number and no five bytes in a row go on |
| Schematic.FillWorld | limbo/world/schematic/load.go:86-97 | for any ids of the right number the loops succeed exactly when all are in the palette and int32 range and panic exactly when more than 2^31 begin well; the world then has each id at its place, 0 everywhere else, and exactly the sections that reach into the sides |
| Schematic.BuildWorld | limbo/world/schematic/load.go:58-105 | for everything NBT can hold, succeeds exactly when sides, palette and data are valid and every id is in the palette, panics exactly when a palette without negative ids has id 2^31 - 1, and the world is that of the palette and the ids |
| Schematic.LastIdPanics | limbo/world/schematic/load.go:107-118 | a schematic of one block for which it panics |
| Schematic.LoadedIsWellPlaced | limbo/world/schematic/load.go:185-225 | the worlds it builds have their sections at different places |
| Schematic.PreviewShowsTheSchematic | core/internal/server/limbo_blueprints.go:352-422 | the preview of a loaded schematic lists an id at a place exactly when the schematic has that id there and it is not 0 |
| Schematic.PreviewIsRightIff | core/internal/server/limbo_blueprints.go:369-403 | by name: the preview lists exactly the blocks not named air if and only if, among the ids in use, 0 stands for air and no other id does |
| Schematic.StoneIsDropped | core/internal/server/limbo_blueprints.go:369-403 | stone and air with stone as entry 0: the preview lists, counts and boxes the air alone |
| Schematic.OutsideIsAirIff | limbo/protocol/limbo/protocol47.go:154-205 | the places of the world's sections outside the schematic are sent as air if and only if palette entry 0 is air, or all sides are multiples of 16 and there are none |
| Schematic.ReportedNumbersFit | core/internal/server/limbo_blueprints.go:410-421 | its reported sides are at most the schematic's, its coordinates are pairwise different, and block_count is at most width * height * length as reported |

## Left out

- HTTP handlers, routing, CORS, audit logging, JSON envelopes and settings clamps: I/O, not modelled.
- The store, Argon2, RSA, HMAC, WebAuthn and token generation: not part of this model; a generated key pair is any pair whose keys were not seen before.
- `node.Registry`, dialog and component builders, config loading, RBAC lists, UUID formatting and dimension presets: not modelled.
- MMDB readers, name localisation, archive extraction and ip-api fetches: library calls; a ballot of the vote starts at its candidate's text.
- Shades.GradientIsBlended: floats are reals, so rounding, NaN and infinities in colour arithmetic and in parsed phases are not modelled.
- Printer.ParseInvertsPrint: covers the trees a parser can produce whose non-void tags have a base name; `unicode.ToLower` is assumed idempotent there.
- Meaning.ParseKeepsText: says nothing when parsing panics; ParsePanics says exactly when that is.
- Strings are sequences of code points: invalid UTF-8, and the stack depth of the Go recursion, are not modelled.
- RoutePool.Pool.Execute: the mutex is held for the whole call, so calls are sequential here; the context handed to transports, int64 limits of the clock and overflow of a weight sum are not modelled.
- RoutePoolRuns.PoolNeverRunsDry: clock values are at or after Go's zero time.
- Download.DownloadURL: request construction errors, custom headers, the file name and digest of the result, and real timers are not modelled; a 206 answers a request that asked for a range.
- RefreshQueue.WaitIsBounded: counts begins, not time; timers only enqueue.
- RoutePool.Pool.contact: a second clock reading, which happens only after a zero first one, is taken to read the same.
- RateLimiter.AdmissionsAreBounded: calls see clock values in the order in which they take the lock.
- EventHub.NoSendAfterClose: pings, writes and reads of the websocket are not modelled; a serving connection may drain its channel or leave at any time.
- KeyedLocks.OnlyTheSameKeyBlocks: says who blocks a thread, not that Go's scheduler is fair.
- RecoveryKey.EachKeyIsGivenOnce: only callers that hold the lock write the setting, and a save that reports success has stored its value; JSON encoding of the setting is taken to lose nothing.
- Dialog.ValidateDialog: errors are the set of their paths; their wording is not modelled. Item ids, URLs and MiniMessage text are checked by predicates about which nothing is assumed.
- DialogMeaning.NormalizeLegacy: starts from a decoded version 1 document; JSON detection and the branch for current documents are not modelled, and the built-in wording is a parameter.
- ProxyProtocol.ReadV1Header: IP and port texts are read by functions about which nothing is assumed.
- ProxyProtocol.Conn.ensureHeader: the trusted-proxy list is one flag, deadlines are reads that fail, and calls are sequential as `sync.Once` makes them.
- Blueprint.MakePreview: palette ids are any natural numbers; the palette listing and the default spawn are not modelled.
- Schematic.BuildWorld: NBT and gzip decoding, block state properties, the world's id and its dimension are not modelled, and allocation always succeeds; sorting a section list after an append is modelled as an ordered insertion.
- Schematic.OutsideIsAirIff: a name stands for what is sent; the block state tables of the protocol versions are not part of this model.
- RecoveryCredentials.EncryptedUnderStoredKeyIff: RSA and storing the credential are not modelled; an encryption that fails is a step that never comes.
