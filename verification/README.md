# Masking proxy: a verified model

The service masks personal data in texts on their way to a language model and puts it
back into the answers. This project models its reversible masking engine, the session
protocol, the sharded expiring cache and the two HTTP counters, and proves what they
promise. To verify: `dafny verify dfyconfig.toml`.

- `SortSlice`, `Common`, `Decimal`, `Modular`, `Runes`: sorting by a contract, decimal
  printing and its inverse, modular arithmetic, white space.
- `Spans`, `Collect`, `Coverage`, `Detection`: overlapping spans are normalised; which positions
  end up masked, and what is detected at all.
- `Luhn`, `Names`, `NameLaws`: card numbers and the morphological name scanner.
- `Replacer`, `Tokens`: the single-pass replacer behind `Demask`, and the placeholders.
- `Weaving`, `Rewriting`, `Maskers`, `MaskedText`, `RoundTrips`, `EndToEnd`: the three maskers,
  what the masked text shows and hides, and when `Demask` undoes it.
- `Fakes`, `FakePeriods`, `FakeShapes`, `FakePools`, `Retry`, `Synth`, `Termination`: the
  synthetic values, what they look like, which of them can coincide, the retry loop, and when
  it stops.
- `Failures`: texts on which masking is not undone, and when the synthetic masker returns at all.
- `Types`, `Cache`, `CacheRuns`: the sharded cache as code, and under concurrency.
- `Service`, `Sessions`, `ShardedSessions`: one call of `Process`, the protocol over any
  interleaving of requests, and the same on the sharded cache with its collector.
- `Gate`, `GateRuns`: concurrency limiter and circuit guard.

Texts are sequences of code points and spans are positions in them; keys are sorted by
their length in UTF-8 bytes, as in the source. Regular expressions are parameters: any
functions that return non-empty locations inside the text. So are letter classes and word
lists. `sort.Slice` is unstable, so results hold for any order among equivalent elements.
The clock and the calendar month are parameters. Critical sections and atomic accesses are
single steps; `Get` reads the entry and looks at the clock in two steps, `Set` looks at the
clock and writes in two steps.

Where the code and its comments disagree the model follows the code:

- The comment on the circuit guard (backend/internal/transport/http/middleware.go:18-22)
  says it prevents `threshold` invalid responses in a row and answers 429 before the
  `threshold`-th. The code lets `threshold` of them through even one after the other
  (`GateRuns.SequentialPattern`), and up to `threshold - 1 + K` with K requests inside
  (`Gate.StreakBounded`, attained by `GateRuns.BoundAttained`).
- Masking is described as reversible (backend/internal/service/service.go:224-229, 346-348).
  A text that already contains an issued placeholder or fake need not be restored
  (`Failures.TokenRoundTripFails`, `Failures.SyntheticRoundTripFails`). Without one it is
  (`RoundTrips.TokenRoundTrip`, `RoundTrips.SyntheticRoundTrip`); the condition is exact for
  placeholders when no masked part contains `[` (`RoundTrips.TokenRoundTripExact`), and for
  fakes when one that matches by accident never stands for just the text that is there
  (`Weaving.AccidentsVisible`).
- `synthValue` is described as returning a unique value. Its loop has no bound: once all
  values of a generator are used it does not return (`Synth.StopsExactly`), as on a text with
  four citizenships (`Failures.FourCitizensHang`). `SynthValue` and `MaskSynthetic` therefore
  require that a fresh value exists, and `Termination` says for which texts it does.

## Model

| member | source | states |
|---|---|---|
| SortSlice.Sort | backend/internal/service/service.go:915-920 | `sort.Slice` in place: a permutation sorted by the given strict weak order; the order among equivalent elements is left open, so every result below holds for any choice |
| Spans.MergeSpans | backend/internal/service/service.go:914-938 | the result is a normal form of the input: non-empty, ascending, at least one position between neighbours, covering exactly the covered positions, each span typed by a widest input span that starts there |
| Spans.MaximalRuns | backend/internal/service/service.go:925-936 | each merged interval is a maximal run of covered positions |
| Spans.NormalFormUnique | backend/internal/service/service.go:914-938 | two separated lists that cover the same positions have the same intervals |
| Spans.MergeCanonical | backend/internal/service/service.go:914-938 | permuting the input, breaking ties differently or merging again does not change the intervals |
| Weaving.CursorFits | backend/internal/service/service.go:328-331 | on merged spans the cursor never passes the next start, so the skip in the three maskers never fires |
| Collect.Compact | backend/internal/service/service.go:608-624 | compaction over the slice's own backing array equals the pure filter of the old contents |
| Collect.FilterComposite | backend/internal/service/service.go:600-625 | in place, what is left is exactly the spans whose type is unconditional or has an anchor present |
| Collect.UniqueTypes | backend/internal/service/service.go:901-912 | the types of the spans, each once, strictly ascending |
| Collect.StringLessMeans | backend/internal/service/service.go:910 | the order of the types is dictionary order: decided at the first difference, a proper prefix first |
| Collect.CollectSpans | backend/internal/service/service.go:540-593 | the merged spans are a normal form of everything the allowed detectors report and composite masking keeps; the detected types are exactly the kept ones, ascending |
| Coverage.AllowedMatchKept | backend/internal/service/service.go:543-548 | every position of every match of an allowed detector is covered by what is merged (a PIN, CVV or expiry under composite masking: when a card number is known) |
| Coverage.CardMatchKept | backend/internal/service/service.go:550-561 | every digit of every prefix of a card match that is a valid card number is covered by what is merged |
| Coverage.MoreTypesKeepMore | backend/internal/service/service.go:540-593 | enlarging the allowed types keeps every covered position covered, composite masking on or off |
| Coverage.MoreTypesMaskMore | backend/internal/service/service.go:540-593 | and so never unmasks a position in the merged spans |
| Coverage.CompositeKeepsLess | backend/internal/service/service.go:582-584 | composite masking covers no position that is not covered without it |
| Coverage.CompositeMasksLess | backend/internal/service/service.go:582-584 | positions masked with composite masking on are masked with it off |
| Coverage.CompositeExact | backend/internal/service/service.go:600-625 | a span is dropped if and only if it is a PIN, CVV or expiry and the text has neither a detected card nor a card-like number |
| Coverage.MaskedTypesDetected | backend/internal/service/service.go:586-592 | every masked type is in the detected list, and every detected type is allowed |
| Coverage.PatronymicMasked | backend/internal/service/service.go:577-591 | every position of a patronymic of at least five letters that is no stop word lies in a merged span whenever FIO is allowed, composite masking or not |
| Detection.CandidatesExact | backend/internal/service/service.go:540-580 | a span is a candidate if and only if a wanted detector matched there, or it is a reported card, an expiry that is not past, or a name from the patterns or the scanner, with its type wanted |
| Detection.CardsExact | backend/internal/service/service.go:550-561 | every reported card is a valid number that starts where its match does, and no prefix of the match with more digits is valid |
| Detection.FutureIsNotPast | backend/internal/service/service.go:942-953 | an expiry counts when its month, counted from year zero with YY read as 20YY, is not before the clock's |
| Detection.NameMatchKept | backend/internal/service/service.go:577-578 | every position of a name the patterns find is covered by what is merged, composite masking or not |
| Detection.ExpiryMatchKept | backend/internal/service/service.go:562-575 | every position of an expiry that is not past is covered, under composite masking when a card number is known |
| Luhn.LuhnOnDigits | backend/internal/service/service.go:979-993 | true exactly when the weighted digit sum is a multiple of ten |
| Luhn.LuhnCheckDigit | backend/internal/service/service.go:465-478 | computes the check digit of a string of digits |
| Luhn.CheckDigitUnique | backend/internal/service/service.go:465-478 | the check digit is the only digit whose appending makes the number valid, at any length (Annex B of ISO/IEC 7812-1) |
| Luhn.SingleDigitErrorDetected | backend/internal/service/service.go:979-993 | changing any one digit of a valid number breaks it, at any length |
| Luhn.AdjacentSwapDetected | backend/internal/service/service.go:979-993 | swapping neighbours keeps a valid number valid if and only if they are equal or 09/90 |
| Luhn.LuhnFormula | backend/internal/service/service.go:979-993 | digit by digit from the right, every second one counts with the digit sum of its double |
| Luhn.ZerosValid | backend/internal/service/service.go:979-1019 | strings of zeros are valid at any length, and card numbers exactly from 13 to 19 digits |
| Luhn.CardText | backend/internal/service/service.go:995-1019 | a card number holds digits, spaces and dashes only |
| Luhn.SeparatorsIgnored | backend/internal/service/service.go:995-1019 | a space or dash anywhere makes no difference to validity |
| Luhn.IsValidLuhn | backend/internal/service/service.go:995-1019 | true exactly for digits, spaces and dashes with 13 to 19 digits whose digits alone are Luhn valid |
| Luhn.LongestLuhnCard | backend/internal/service/service.go:958-977 | finds the end of the longest Luhn-valid prefix of 13 to 19 digits, or reports that there is none |
| Luhn.LongestCardMaximal | backend/internal/service/service.go:955-977 | on digits, spaces and dashes a found prefix is a valid card and no prefix with more digits is; when nothing is found no prefix is a valid card |
| Names.TokenizeWords | backend/internal/service/service.go:666-696 | the flagged scan returns the words of the text |
| Names.WordsAreRuns | backend/internal/service/service.go:666-696 | words are maximal runs of letters with their lower-case form, in order and apart |
| Names.LettersInWords | backend/internal/service/service.go:671-694 | every letter of the text lies in a word |
| Names.AdjacentTokens | backend/internal/service/service.go:759-773 | true exactly when all gaps are one to three spaces, tabs or dashes |
| Names.NameTest | backend/internal/service/service.go:716-739 | the counters decide: all words name-like and one strong, or an unknown middle word between two, or a lone patronymic |
| Names.FindFIOMorph | backend/internal/service/service.go:698-757 | terminates with the greedy scan: at each word the widest window that is a name |
| Names.ScanAligned | backend/internal/service/service.go:741-746 | every reported span lies on one to three adjacent words that form a name |
| Names.ScanSeparated | backend/internal/service/service.go:705-756 | reported spans are in order with a position between neighbours |
| Names.ScanComplete | backend/internal/service/service.go:705-756 | a word at which any window is a name lies inside a reported span |
| Names.PatronymicCovered | backend/internal/service/service.go:737-750 | every patronymic that is no stop word lies inside a reported span |
| NameLaws.PatronymicEndings | backend/internal/service/service.go:74 | a word is a patronymic if and only if it has five letters or more and one of five endings; the sixth is redundant |
| NameLaws.SurnameEndings | backend/internal/service/service.go:68-72 | of the 25 surname endings 24 decide |
| NameLaws.WindowExact | backend/internal/service/service.go:716-741 | a window is a name if and only if, by the word lists and endings: a lone patronymic; two neighbouring names with a strong one; or three with the middle one unlisted or a name; no stop word, no famous name |
| NameLaws.NameCovered | backend/internal/service/service.go:705-750 | every word at which such a name of one, two or three words starts lies inside a reported span |
| NameLaws.NameMasked | backend/internal/service/service.go:577-591 | and is masked at each position whenever FIO is allowed |
| NameLaws.ReportedIsName | backend/internal/service/service.go:705-750 | every reported span lies exactly on the words of such a name, the widest there is at its first word |
| NameLaws.ReportedSound | backend/internal/service/service.go:732-741 | every reported span holds a given name or a patronymic, and no stop word |
| Replacer.Demask | backend/internal/service/service.go:285-301 | for every mapping without an empty key the result is left-to-right longest-match replacement |
| Replacer.OrderIrrelevant | backend/internal/service/service.go:289-300 | any listing of the mapping by descending byte length gives that same text: map order and the unstable sort cannot show |
| Tokens.PlaceholderInjective | backend/internal/service/service.go:335 | type and number can be read back from `[TYPE_N]`, whatever underscores the type contains |
| Tokens.TokensPrefixFree | backend/internal/service/service.go:335 | no placeholder is a proper prefix of another |
| Tokens.TokenKeysDistinct | backend/internal/service/service.go:334-336 | the placeholders of one call are pairwise distinct |
| Tokens.DemaskCompositional | backend/internal/service/service.go:285-301 | around an issued placeholder the two sides are demasked independently: `Demask(a+k+b) = Demask(a) + mapping[k] + Demask(b)` |
| Tokens.ReplyExpands | backend/internal/service/service_test.go:157-164 | a reply of free text and issued placeholders, repeated, reordered or dropped, demasks part by part |
| Weaving.TextRestored | backend/internal/service/service.go:285-301 | one pass of the replacer restores the text when no key matches in a gap and each inserted key is the longest match at its place |
| Weaving.TextRestoredExact | backend/internal/service/service.go:285-301 | when a key that matches by accident never stands for what the text has there, the text is restored if and only if that condition holds |
| Maskers.Mask | backend/internal/service/service.go:311-344 | the text with the per-type numbered placeholder of each merged span in its place, position by position, and the mapping from each placeholder to the text of its span |
| Maskers.MaskSynthetic | backend/internal/service/service.go:349-385 | the text with, for each merged span, the first unused fake of its type in its place, and the reverse mapping, on every text on which the source returns |
| Maskers.MaskAsterisks | backend/internal/service/service.go:500-538 | the text with each merged span starred out |
| Rewriting.WovenRewritten | backend/internal/service/service.go:324-341 | every text rewritten span by span: the length adds up, each unmasked position stands unchanged at its shifted place, each key at the shifted start of its span |
| Rewriting.RewrittenExact | backend/internal/service/service.go:324-341 | these positions decide the text |
| Rewriting.UnmaskedStands | backend/internal/service/service.go:324-341 | every position outside the spans is still there, at its shifted place |
| MaskedText.TokensNumbered | backend/internal/service/service.go:334-335 | placeholders are numbered per type from left to right, from one |
| MaskedText.TokensHide | backend/internal/service/service.go:311-344 | secrecy: texts with the same unmasked parts and the same types are masked alike, whatever the masked parts hold |
| MaskedText.FakesHide | backend/internal/service/service.go:349-385 | secrecy of the fakes: of a masked part only its generator shows, that is the number of words of a name and of digits of an address |
| MaskedText.TokensAnswer | backend/internal/service/service.go:241-263 | what a first call answers with tokens: unmasked text unchanged at its shifted place, each span's placeholder in its place |
| MaskedText.FakesAnswer | backend/internal/service/service.go:241-263 | the same with fakes |
| MaskedText.AnswersHide | backend/internal/service/service.go:241-263 | two first payloads that differ only in what is masked get the same answer |
| RoundTrips.TokenMappingExact | backend/internal/service/service.go:324-340 | the mapping has one entry per merged span, holding its text, and its keys for type T are exactly `[T_1]` to `[T_n]` |
| RoundTrips.TokenDemask | backend/internal/service/service.go:285-344 | for every text, demasking restores each span and demasks each gap on its own |
| RoundTrips.TokenRoundTrip | backend/internal/service/service.go:285-344 | `Demask` inverts `Mask` whenever no issued placeholder occurs in an unmasked gap; the masked parts may hold anything |
| RoundTrips.TokenRoundTripExact | backend/internal/service/service.go:285-344 | when no masked part contains `[`, `Demask` inverts `Mask` if and only if no issued placeholder occurs in an unmasked gap |
| RoundTrips.SynthMappingFacts | backend/internal/service/service.go:362-377 | fakes are distinct and non-empty: the mapping has one entry per merged span, holding its text |
| RoundTrips.SyntheticRoundTrip | backend/internal/service/service.go:285-301 | `Demask` inverts `MaskSynthetic` when no fake matches in a gap and no longer fake where one was inserted; exactly then, if accidental matches always stand for something else |
| RoundTrips.SynthRunUnique | backend/internal/service/service.go:373-377 | the fakes of a text are determined by its spans |
| RoundTrips.AsterisksPositionwise | backend/internal/service/service.go:520-532 | same length; outside the spans nothing changes; inside, a code point is `*` unless it is a listed separator or an edge of a span longer than four |
| Failures.TokenRoundTripFails | backend/internal/service/service.go:285-344 | a text with an e-mail address and a placeholder in front of it is not restored, for any service that detects just the address in it |
| Failures.SyntheticRoundTripFails | backend/internal/service/service.go:349-385 | a text with a birthplace, as the pattern of line 115 finds it, and the city that becomes its fake is not restored, for any service that detects just the birthplace in it |
| EndToEnd.MaskDemask | backend/internal/service/service.go:285-344 | for any detectors with bracket-free type names and any outcome of the sort: the round trip under its condition, and replies expand part by part |
| EndToEnd.PatronymicStarred | backend/internal/service/service.go:500-538 | with FIO allowed every position of a patronymic is written by `MaskAsterisks` as masked text |
| Failures.ForwardReturns | backend/internal/service/service.go:349-456 | the forward step of a synthetic session returns when, for whatever spans the sort may give, every pool of fakes is large enough; and only then, if within a pool the generator with more values comes last |
| Fakes.SynthCardValid | backend/internal/service/service.go:459-463 | every generated card number is a valid card number |
| Fakes.CardDistinct | backend/internal/service/service.go:459-463 | `synthCard` is injective on any 10^14 consecutive numbers |
| FakePeriods.Distinct | backend/internal/service/service.go:399-451 | each generator gives pairwise distinct values within its period: names 10/100/300, phone 1000, expiry 36, date 1092, passport 89 000 000, INN 10^12, and so on; e-mail without limit |
| FakePeriods.Periodic | backend/internal/service/service.go:399-451 | each generator with a period repeats after it |
| Retry.FirstUnused | backend/internal/service/service.go:396-455 | the unbounded loop returns the first unused value, given that one exists |
| Synth.SynthValue | backend/internal/service/service.go:395-456 | returns the first value of the type's generator, from the counter on, that is not in `used`; read off the text it has the type's shape for some number from the counter on, and a value of that shape is used for each number before |
| FakeShapes.FakeIsShaped | backend/internal/service/service.go:399-451 | the shape of each type's value and the number in each printed field: phone, e-mail, card, expiry, CVV, PIN, date, passports, SNILS, INN, code, holder, address, citizenship, birthplace; a name has one, two or three words as the original has; any other type gives its placeholder |
| MaskedText.FakesShaped | backend/internal/service/service.go:362-377 | every fake of a masked text has the shape of its span's type, counted from the span's own number |
| Synth.StopsInTime | backend/internal/service/service.go:395-456 | while fewer values are used than the period, the loop stops within `|used| + 1` attempts |
| Synth.StopsExactly | backend/internal/service/service.go:395-456 | a generator of period p has p values and the loop stops if and only if one of them is unused |
| FakePools.PoolReadBack | backend/internal/service/service.go:395-456 | the generator's pool can be read back from a value: only CVV and three-digit, PIN and four-digit, INN and twelve-digit address values can coincide; no other generators ever give the same |
| FakePools.StopsByCount | backend/internal/service/service.go:395-456 | whatever is used already, the loop stops if and only if fewer than a period of the used values are among those the generator can give |
| Termination.PeriodLimits | backend/internal/service/service.go:349-456 | if masking a text returns, no generator with a period serves more spans of it than the period |
| Termination.PoolsSuffice | backend/internal/service/service.go:349-456 | masking returns when before each span its pool has served fewer spans than the generator has values; e-mail addresses and placeholders without a generator never run out |
| Termination.TerminatesExactly | backend/internal/service/service.go:349-456 | masking returns if and only if that holds, decided by counting spans, when no generator comes after one of its pool that has more values |
| Termination.TerminatesByFakes | backend/internal/service/service.go:349-456 | on every text: masking returns if and only if no generator's values are all among the fakes issued when it is next needed |
| Failures.FourCitizensHang | backend/internal/service/service.go:395-456 | a text with four citizenships, as the pattern of line 117 finds them, on which the synthetic masker never returns |
| Failures.SuchServicesExist | backend/internal/service/service.go:81-117 | there are services that detect just the address, the birthplace and the four citizenships in the three texts above, so none of the failures is empty |
| Service.Service.Process | backend/internal/service/service.go:241-283 | a live session answers the mask again, the payload (demasking off) or the demasked payload and stores nothing, on every payload; otherwise the payload is masked by the strategy and stored with a fresh expiry, if the masker returns |
| Service.SecondCall | backend/internal/service/service.go:241-283 | two calls under one id, others in between: for fifteen minutes after the first was stored the second is answered from its session, by its text and the demasking option, and stores nothing; later it is a first call again |
| Cache.ShardedCache.GetShard | backend/internal/repository/cache/cache.go:52-59 | the byte loop computes the key's shard, below 64 |
| Cache.ShardedCache.Get | backend/internal/repository/cache/cache.go:61-71 | the entry of the key's shard if present and not expired, else a miss |
| Cache.ShardedCache.Set | backend/internal/repository/cache/cache.go:73-80 | writes the stamped entry into the key's shard and changes nothing else |
| Cache.SetThenGet | backend/internal/repository/cache/cache.go:14-80 | what was set can be got for 900 000 000 000 ns and not after; other keys are as before |
| Cache.FnvExamples | backend/internal/repository/cache/cache.go:52-59 | published FNV-1a hashes and their shards |
| Cache.ShardedCache.ScanShard | backend/internal/repository/cache/cache.go:102-108 | collects exactly the expired keys of a shard |
| Cache.ShardedCache.DeleteKeys | backend/internal/repository/cache/cache.go:114-120 | deletes exactly the collected keys whose entry is still expired |
| Cache.ShardedCache.Cleanup | backend/internal/repository/cache/cache.go:96-122 | run alone, removes exactly the expired entries of every shard |
| CacheRuns.AnswersAsPlainMap | backend/internal/repository/cache/cache.go:52-122 | over every interleaving of `Get` (read, then clock), `Set` (clock, then write), clock, scan and delete phases the answers are those of one plain expiring map, and each key stays in its shard |
| CacheRuns.RefreshedKeySurvives | backend/internal/repository/cache/cache.go:115-118 | a key refreshed between scan and delete survives the delete phase |
| CacheRuns.LiveEntriesKept | backend/internal/repository/cache/cache.go:96-122 | at any point of any run the unexpired entries are exactly those of the plain map |
| CacheRuns.ReadYourWrite | backend/internal/repository/cache/cache.go:52-122 | over every interleaving, collector included: a key written once is answered with that state by every read that starts after the write and looks at the clock within fifteen minutes of the stamp, and is a miss after that |
| Sessions.SessionsAgree | backend/internal/service/service.go:241-283 | over every interleaving: each forward request gets the one mask of its id; with demasking on, whoever sends the mask back gets the first payload and any other text is demasked with the id's one mapping; with demasking off it comes back as sent |
| Sessions.TokensUndo | backend/internal/service/service.go:282 | tokens meet the session's round-trip condition when no issued placeholder occurs in the gaps |
| Sessions.FakesUndo | backend/internal/service/service.go:282 | fakes meet it when none matches out of place |
| Sessions.AsterisksUndo | backend/internal/service/service.go:274-281 | asterisks always meet it: the original comes from the store |
| ShardedSessions.ShardedSessionsAgree | backend/internal/service/service.go:241-283 | the same promises on the sharded cache with the collector running in between |
| ShardedSessions.SessionRestores | backend/internal/service/service.go:241-283 | from the detectors to the answer: on the sharded cache, over every legal interleaving, whoever sends back the mask the service issued under an id gets the id's first payload; with asterisks always, with tokens and fakes under their round-trip condition on the unmasked text |
| Gate.InFlightExact | backend/internal/transport/http/middleware.go:89-102 | over every interleaving the in-flight counter equals the requests inside plus those being rejected, never more than the limit are inside, and it is zero when all are gone, panics included |
| Gate.StreakBounded | backend/internal/transport/http/middleware.go:24-55 | with threshold t >= 1 behind a limit K the guarded responses never show more than t-1+K consecutive invalid ones |
| Gate.StreakBoundedInService | backend/internal/transport/http/middleware.go:16-55 | with the limit of 2500: no stretch of more than t+2499 invalid responses |
| Gate.ThrottledForReason | backend/internal/transport/http/middleware.go:24-31 | over every interleaving the counter is at most the number of invalid responses after the last valid one; so the guard throttles only when that number has reached the threshold, and never when it is off |
| Gate.RejectedInService | backend/internal/transport/http/middleware.go:89-99 | the limiter lets a request in if and only if fewer than 2500 are in flight |
| GateRuns.SerialAnswers | backend/internal/transport/http/middleware.go:24-55 | any sequential client: the guard answers 429 exactly when t failures or panics came since the last valid response or guard 429; else the handler answers |
| GateRuns.FreshStartMeans | backend/internal/transport/http/middleware.go:24-55 | counting starts behind the last valid response or guard 429; a 429 of the handler's own is neither counted nor a fresh start |
| GateRuns.HandlerAnswers | backend/internal/transport/http/middleware.go:34-51 | in any interleaving failures and panics are logged invalid and counted, a valid response is logged valid and resets the counter, a 429 leaves it |
| GateRuns.SequentialPattern | backend/internal/transport/http/middleware_test.go:12-35 | a client that fails one request after the other sees t invalid responses, one 429, and so on with period t+1 |
| GateRuns.BoundAttained | backend/internal/transport/http/middleware.go:24-55 | for every t and K some run shows exactly t-1+K consecutive invalid responses |
| GateRuns.Middleware.Enter | backend/internal/transport/http/middleware.go:91-92 | the limiter's increment and its test, as one step of the machine |
| GateRuns.Middleware.Load | backend/internal/transport/http/middleware.go:26 | the guard's load, as one step |
| GateRuns.Middleware.Finish | backend/internal/transport/http/middleware.go:35-51 | the guard's deferred update, as one step: panics and error statuses count, 429 does not, the rest resets |
| GateRuns.Middleware.Serve | backend/internal/transport/http/middleware.go:24-102 | one guarded request alone through limiter, guard and handler is the machine's five steps |

## Left out

- Regular expressions and detection accuracy: the patterns are parameters that return
  locations; `findSpans` with its capture groups is part of them, and so is `findFIO` with its role words.
- Invalid UTF-8: texts are code points, and the replacer's treatment of an empty pattern,
  which is defined on bytes, is excluded by requiring a mapping without the empty key; no
  mapping the service issues has one (`Service.Service.Process` keeps that).
- Replacer.Demask: requires a mapping without the empty key, see above.
- Machine integers: counters and numbers are unbounded; 64-bit wrap-around is out of reach
  for texts that fit in memory.
- RoundTrips.TokenRoundTripExact: the equivalence is stated for masked parts without `[`;
  for other texts the two sides of a replaced placeholder can cancel out, and
  `RoundTrips.TokenDemask` gives the exact result instead.
- RoundTrips.SyntheticRoundTrip: without the assumption on accidental matches only the
  sufficient direction holds, because a fake may stand for just the text that is there.
- Maskers.MaskSynthetic: says nothing on texts on which a generator runs dry; the source
  does not return there.
- Termination.TerminatesExactly: when a CVV comes after three-digit address numbers, a PIN
  after four-digit ones, or a twelve-digit address number after an INN, how many spans there
  are does not decide, because it depends on which values the wider generator has given out;
  `Termination.PoolsSuffice` and `Termination.PeriodLimits` bound it from both sides and
  `Termination.TerminatesByFakes` decides it by those values.
- Sessions.SessionsAgree: assumes one first payload per id, fixed options and detector
  results, reverse requests only after a forward answer, and entries
  read before they expire; races between different payloads under one id are not covered.
- Cache.ShardedCache: shards are an array of maps; the shard object, its lock and the
  background goroutine appear only as steps of `CacheRuns`.
- Gate.InFlightExact: requests of other routes take the limiter but not the guard; the
  metrics and recovery middleware around them are not modelled.
- Sorting by `sort.Slice`: its algorithm is not modelled, only its contract.
- The text of the words `strings.Fields` splits (only their number is computed), and the
  contents of the word lists with `expandInflections`.
- Redis client, JSON, routing, Prometheus metrics, audit log, configuration loading and
  live updates, nginx, load generator and frontend.
