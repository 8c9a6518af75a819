# MMA profile scraper: extraction and bookkeeping core in Dafny

This project models the deterministic core of an MMA fighter-profile scraper. The scraper reads
Fightmetric and Sherdog profile pages as lists of text lines. It turns them into stats, bout
records and profile links. It stores them in three keyed SQLite tables while crawling outward
from a start fighter, then canonicalises bouts into a win matrix, a fight graph and matchup
feature rows.

The model has ten modules, one per source concern:

| file | module | source |
|---|---|---|
| text.dfy | `Text` | Python string built-ins the core relies on: `in`, `strip`, `split`, `replace`, `float` on decimal numerals, string order, and `re.sub(r'<.*?>', '', s)` (fetch.py `strip_html`) |
| records.dfy | `Records` | errors as values, the bout record type, and the outcome and time sums shared by fmcrawler_sql.py and fmprocess.py |
| fightmetric.py | `Fightmetric` (fightmetric.dfy) | unit converters, `parse_stats`, the `parse_fights` line state machine, `find_url`/`get_fighter_urls`, `parse_page`, and the URL normalisation and retry loop of `get_page` |
| fmcrawler_sql.py | `CrawlStore` (crawler.dfy) | `strip_key`, the INSERT text, the FighterURLs/Fighters/Fights tables as maps inside a `Store` class, the page write, and the `crawl` rounds |
| fmprocess.py | `FightProcess` (process.dfy) | `process_fight`, `get_fights` |
| fmprocess.py | `FightGraph` (fightgraph.dfy) | `create_fight_matrix`, `create_fight_graph`, `prune_graph` |
| fmprocess.py | `Matchup` (matchup.dfy) | `build_matchup` |
| fetch.py | `Sherdog` (sherdog.dfy) | `parse_fighter_stats`, `parse_fighthistory`, `parse_spanclass` |
| fetch.py | `Biography` (biography.dfy) | `parse_props` |
| fetch.py | `WinLoss` (fightrecord.dfy) | `parse_fightrecord` |

Conventions:
- A Python exception is an `Err` value naming its kind: `KeyError`, `IndexError`, `ValueError`, `TypeError`, `NameError` (a variable read before assignment), `AssertionError`, `NodeNotFound`, or `OperationalError` (SQLite rejecting a statement). Every loop, comprehension and table write stops at the first error, in the source's order.
- A dict value is `Value = Str | Num(real) | Null`. A bout field is a `Cell`: either a scalar or a two-element list.
- Code that updates state step by step is a `method` with a loop. Its `ensures` ties the result to a fold function over the input. The properties the source promises are proved about that function as lemmas.
- The network fetch is a parameter `fetch: (url, attempt) -> Option<page>`. Python's built-in `hash` is a parameter `hash: string -> int`.

## Model

| member | source | states |
|---|---|---|
| Text.ContainsIff | fightmetric.py:182 | the substring test `t in s` holds exactly when `t` occurs at some position of `s` |
| Text.IndexFrom | fetch.py:293 | the first occurrence of `t` at or after `i`: it occurs there, not earlier, and None means no occurrence at all |
| Text.StripSpec | fightmetric.py:129 | `strip()` returns a contiguous slice of its input; only whitespace is cut on either side, and the result neither starts nor ends with whitespace |
| Text.StripNoSpace | fightmetric.py:129 | a text with non-space ends is its own strip |
| Text.SplitWords | fightmetric.py:303 | every piece of `split()` is a nonempty run without whitespace |
| Text.SplitOneWord | fightmetric.py:303 | a single word splits to itself |
| Text.SplitCons | fightmetric.py:303 | a word followed by whitespace-led text splits to the word, then the split of the rest |
| Text.SplitDrop | fightmetric.py:303 | dropping leading whitespace does not change the split |
| Text.SplitTwoWords | fightmetric.py:303 | `"a b".split()` is `[a, b]` for two words |
| Text.ReplaceAbsent | fightmetric.py:311 | `replace` with a pattern that does not occur returns the input |
| Text.ReplaceSkip | fightmetric.py:311 | a prefix without the pattern's first character passes through `replace` unchanged |
| Text.ReplaceShort | fightmetric.py:311 | a text shorter than the pattern is unchanged by `replace` |
| Text.ReplaceHead | fightmetric.py:311 | a leading occurrence is replaced and the scan continues after it |
| Text.ReplaceInserts | fightmetric.py:311 | a character of the replacement appears in the result whenever the pattern occurs |
| Text.ReplaceCharConcat | fightmetric.py:315 | replacing a one-character pattern distributes over concatenation |
| Text.DeleteChar | fightmetric.py:315 | deleting a character removes every copy of it, keeps every other character, and never lengthens the text |
| Text.TagEnd | fetch.py:224 | the nearest `>` on the same line, with no newline or `>` before it |
| Text.StripHtml | fetch.py:223-225 | tag stripping never lengthens the text |
| Text.StripHtmlNoAngle | fetch.py:223-225 | text without `<` is unchanged by `strip_html` |
| Text.StripHtmlKeepsOpenTag | fetch.py:223-225 | a text with no `>` before its next newline keeps that property after `strip_html` |
| Text.StripHtmlClean | fetch.py:223-225 | after `strip_html` no `<...>` span without a newline remains |
| Text.DigitChar | fightmetric.py:146 | each digit value has a digit character of that value |
| Text.NatToString | fightmetric.py:146 | a natural number's decimal numeral is a nonempty string of digits |
| Text.DigitsOfNat | fightmetric.py:146 | the numeral's digits denote the number |
| Text.NatToStringIsWord | fightmetric.py:303 | a numeral contains no whitespace |
| Text.DigitsFoldSnoc | fightmetric.py:146 | reading one more digit multiplies the value by ten and adds the digit |
| Text.DigitsFoldValue | fightmetric.py:146 | the left-to-right digit fold equals the positional value |
| Text.IntPartDigits | fightmetric.py:146 | the integer scanner of `float()` accepts a digit run and yields its value |
| Text.ParseNatToString | fightmetric.py:146 | `float()` of a natural number's numeral is that number |
| Text.StrLtIrreflexive | fmprocess.py:209 | the string order is irreflexive |
| Text.StrLtAsymmetric | fmprocess.py:209 | the string order is asymmetric |
| Text.StrLtTotal | fmprocess.py:209 | any two different strings are ordered one way |
| Text.StrLtTransitive | fmprocess.py:209 | the string order is transitive |
| Text.SortPairSymmetric | fmcrawler_sql.py:213 | `sorted` on two names ignores their order, keeps both names, and puts them in increasing order |
| Records.Winner | fmcrawler_sql.py:220-225 | succeeds exactly when the bout has an outcome; the winner is one of the two names or 'Draw', and it is a name only for 'win' or 'loss' |
| Records.ToNumber | fightmetric.py:146 | `float()` succeeds exactly when the text parses as a decimal numeral, and then returns that numeral's value |
| Records.CountOutcome | fmcrawler_sql.py:306-312 | the count succeeds exactly when every bout has an outcome (KeyError otherwise), and is at most the number of bouts |
| Records.Outcomes | fmcrawler_sql.py:307 | the outcomes of the bouts, one per bout, in order |
| Records.CountOutcomeValue | fmcrawler_sql.py:306-312 | `compute_wins`/`compute_losses` return exactly the number of bouts whose outcome is the given one |
| Records.WinsPlusLosses | fmcrawler_sql.py:306-312 | wins and losses count disjoint bouts; they add up to the number of bouts exactly when every outcome is 'win' or 'loss' |
| Records.CumTime | fmcrawler_sql.py:314-316 | the sum succeeds exactly when every bout has a numeric Time, and is 0 when all are 0 |
| Records.CumTimeOne | fmcrawler_sql.py:314-316 | the summed time of one bout is its Time; with CumTimeAppend this makes the result the sum of all the Times |
| Records.CumTimeAppend | fmcrawler_sql.py:314-316 | the summed time of two bout lists is the sum of their sums |
| Records.Enumerate | fmcrawler_sql.py:167 | lists each member of a set exactly once |
| Fightmetric.NumeralIsWord | fightmetric.py:319 | a numeral has no whitespace and is not the `--` placeholder |
| Fightmetric.NoDigitIn | fightmetric.py:311 | a non-digit does not occur in a digit string |
| Fightmetric.DeleteAbsent | fightmetric.py:315 | deleting a character that does not occur changes nothing |
| Fightmetric.DropLast | fightmetric.py:311 | deleting a trailing unit character returns the text before it |
| Fightmetric.ReplaceSeparator | fightmetric.py:303 | replacing a separator that occurs once substitutes just that one |
| Fightmetric.ToNumberNat | fightmetric.py:146 | a natural number's numeral is a numeral and `float()` returns the number |
| Fightmetric.ToNumberSpace | fightmetric.py:337-340 | a trailing space does not change the parsed number |
| Fightmetric.MinutesSecondsPair | fightmetric.py:304-308 | two numbers x, y give x*60 + y seconds |
| Fightmetric.MinutesSecondsNat | fightmetric.py:304-308 | the same for two numerals |
| Fightmetric.MinsToSecNumerals | fightmetric.py:303 | `m:s` splits at the colon into the two numerals |
| Fightmetric.MinsToSecFormat | fightmetric.py:302-308 | `mins_to_sec("m:s")` is m*60 + s |
| Fightmetric.PercentFormat | fightmetric.py:310-312 | `percent_to_prop("n%")` is n/100 |
| Fightmetric.FtToCmNumerals | fightmetric.py:315 | removing `'` and `"` from `a' b"` and splitting gives the two numerals |
| Fightmetric.FeetInchesPair | fightmetric.py:319-324 | two numbers, neither of them `--`, give feet*30.48 + inches*2.54 |
| Fightmetric.FeetInchesNat | fightmetric.py:319-324 | the same for two numerals |
| Fightmetric.FtToCmFormat | fightmetric.py:314-324 | `ft_to_cm("f' i\"")` is f*30.48 + i*2.54 |
| Fightmetric.InToCmFormat | fightmetric.py:326-333 | `in_to_cm("n\"")` is n*2.54 |
| Fightmetric.LbsToKgFormat | fightmetric.py:336-344 | `lbs_to_kg("n lbs.")` is n*0.454 |
| Fightmetric.PlaceholderGuard | fightmetric.py:316-340 | with the `--` guard the three length/weight converters return 0 for `--`; without it (fetch.py) they fail |
| Fightmetric.MatchIndices | fightmetric.py:127 | the comprehension's indices are exactly the lines holding the label, in increasing order |
| Fightmetric.SortedEnds | fightmetric.py:127 | an increasing index list lies between its first and last element |
| Fightmetric.RawValue | fightmetric.py:127 | a value is read exactly when the label occurs and every labelled line has its offset line on the page; it is the offset line below the FIRST labelled line; every failure is IndexError |
| Fightmetric.StatDispatch | fightmetric.py:131-149 | a value containing `%` goes to `percent_to_prop` whatever the metric; a value stays text exactly when the metric is DOB or STANCE and has no `%`; any other metric that converts becomes a number |
| Fightmetric.TabulateOk | fightmetric.py:120-153 | the metric loop succeeds exactly when every metric converts; the dict has exactly the metrics as keys, each with its converted value |
| Fightmetric.TabulateErr | fightmetric.py:120-153 | a failure is the error of the first metric that fails, all before it succeeding |
| Fightmetric.TabulateAborts | fightmetric.py:120-153 | once a prefix of the metrics fails, the whole loop fails the same way |
| Fightmetric.ParseStats | fightmetric.py:101-153 | the loop fills the dict exactly as the metric fold does |
| Fightmetric.CamelJoint | fightmetric.py:246 | the first position of a letter followed by an upper-case letter or digit, or None when there is none |
| Fightmetric.FixName | fightmetric.py:246-248 | succeeds exactly when such a pair exists (else IndexError from `myre[0]`), and the result contains a space |
| Fightmetric.FixNameValue | fightmetric.py:245-249 | a repaired name entry is a string containing a space |
| Fightmetric.FixFighterNames | fightmetric.py:245-249 | the loop over the two names gives the same result as the name-repair function |
| Fightmetric.RunFirst | fightmetric.py:179 | the line loop is the first line's step followed by the rest |
| Fightmetric.StepAfterOpen | fightmetric.py:209-253 | after the header/outcome/cell-open checks, a line's step is the cell close, then the gathering and the row end |
| Fightmetric.MarkLine | fightmetric.py:182-206 | the header, outcome and cell-open checks of one line, as the specification step computes them |
| Fightmetric.CloseCell | fightmetric.py:209-236 | the cell close of one line, as the specification step computes it |
| Fightmetric.EndRow | fightmetric.py:244-253 | the row end of one line, as the specification step computes it |
| Fightmetric.ScanLine | fightmetric.py:179-253 | one iteration of the line loop equals the specification step |
| Fightmetric.ParseFights | fightmetric.py:155-255 | the state machine over the page returns exactly the fold of the step over the lines |
| Fightmetric.CellShape | fightmetric.py:217-234 | Method stays text, Round and Time become numbers, every other column becomes a pair that is text for W/L, Fighter and Event and numbers otherwise |
| Fightmetric.TextCellHalves | fightmetric.py:217-225 | a text cell splits at floor(len/2); the two space-free halves concatenate to the value without spaces |
| Fightmetric.FixFightersWellFormed | fightmetric.py:244-251 | after the name repair a bout has an outcome and two text names, each containing a space |
| Fightmetric.StepConsistent | fightmetric.py:179-253 | one line keeps the scanner's invariant: an open row has a current bout with an outcome, and every appended bout is well formed |
| Fightmetric.MarkedConsistent | fightmetric.py:182-206 | the opening checks keep that invariant |
| Fightmetric.CloseConsistent | fightmetric.py:209-240 | the cell close and gathering keep it |
| Fightmetric.EndRowConsistent | fightmetric.py:244-253 | the row end keeps it |
| Fightmetric.RunConsistent | fightmetric.py:179-255 | the whole loop keeps it |
| Fightmetric.FightsWellFormed | fightmetric.py:155-255 | every bout `parse_fights` returns has an outcome and two repaired names |
| Fightmetric.StepRow | fightmetric.py:203-253 | on `</tr>` with `ctr == len(columns)-1` exactly one bout is appended, and `ctr` and the open row are reset; otherwise the bouts are unchanged and `ctr` counts the cells opened while a row is open; columns only grow |
| Fightmetric.MarkedCounts | fightmetric.py:182-206 | the opening checks count a cell only while a row is open and append no bout |
| Fightmetric.HeaderKeepsRow | fightmetric.py:182-192 | the header checks change only the header fields, and columns only grow |
| Fightmetric.OutcomeOpens | fightmetric.py:195-201 | a `win<i` or `loss<i` line opens a row, and nothing else changes |
| Fightmetric.CellOpenCounts | fightmetric.py:203-206 | a `<td` line in an open row adds one to `ctr` |
| Fightmetric.CloseKeepsRow | fightmetric.py:209-240 | closing a cell leaves the counter, the row flag, the bouts and the columns |
| Fightmetric.EndRowCounts | fightmetric.py:244-253 | the row end appends exactly one bout and resets, or changes nothing |
| Fightmetric.RunKeepsBouts | fightmetric.py:179-255 | appended bouts and columns are never removed |
| Fightmetric.SegmentEnd | fightmetric.py:292 | the end of the current line segment: no newline before it, a newline at it |
| Fightmetric.LastQuote | fightmetric.py:292 | the last `"` before the segment end, since `.*` is greedy |
| Fightmetric.PrefixHasNoNewline | fightmetric.py:292 | the link pattern has no newline |
| Fightmetric.MatchAt | fightmetric.py:292-293 | a match starts with the pattern (its `.` any non-newline character) and ends at a `"` with no newline between |
| Fightmetric.FindUrlsShape | fightmetric.py:281-296 | every link found starts with the pattern, holds no newline, and occurs in the text directly before a `"` |
| Fightmetric.OneLinkPerLine | fightmetric.py:292-294 | a line yields at most one link |
| Fightmetric.OneLinkFrom | fightmetric.py:292-294 | the same from any starting position |
| Fightmetric.NoLinkAfterLastQuote | fightmetric.py:293 | on a single line, once a match ends at a `"`, no further link is found after it |
| Fightmetric.FirstLinkFrom | fightmetric.py:293-294 | the first link found is the match at some position |
| Fightmetric.LinkRunsToLastQuote | fightmetric.py:292-294 | on a line, the link runs from the pattern up to, not including, the line's last `"` |
| Fightmetric.FoundEndsAtLastQuote | fightmetric.py:292-294 | a match on such a line ends at its last `"` |
| Fightmetric.FighterUrls | fightmetric.py:257-279 | every URL collected from the page's lines is a profile link: it starts with the link pattern and holds no newline |
| Fightmetric.ProfileName | fightmetric.py:80-93 | the name is 'Unknown fighter' without bouts, else the first name of the first bout, which is well formed and contains a space |
| Fightmetric.ParsePage | fightmetric.py:61-97 | the page is parsed into stats, bouts, name and links exactly as the profile function says, failing with the first error in the source's order of evaluation |
| Fightmetric.ContainsAt | fightmetric.py:39 | an occurrence at a position makes the substring test true |
| Fightmetric.NormalizeUrl | fightmetric.py:38-43 | the normalised URL mentions the site and `http://`; a URL that already does is unchanged |
| Fightmetric.NormalizeUrlIdempotent | fightmetric.py:38-43 | normalising twice is normalising once |
| Fightmetric.FirstFetchSpec | fightmetric.py:45-58 | the page is the first of three attempts that succeeds, or `['Empty page']` when all fail |
| Fightmetric.GetPage | fightmetric.py:38-58 | the retry loop returns the first successful attempt on the normalised URL, or the sentinel |
| CrawlStore.LowerAll | fmcrawler_sql.py:322 | `lower()` keeps the length and lowercases each character |
| CrawlStore.DeleteIsWithout | fmcrawler_sql.py:322 | deleting a character by `replace` is filtering it out |
| CrawlStore.StripKeyClean | fmcrawler_sql.py:320-324 | a stripped key has no `.`, no space and no upper-case letter |
| CrawlStore.StripKeyIdempotent | fmcrawler_sql.py:320-324 | stripping a stripped key changes nothing |
| CrawlStore.NoCharNoOccurrence | fmcrawler_sql.py:322 | a missing character has no occurrence |
| CrawlStore.StripKeyExample | fmcrawler_sql.py:320-324 | 'Str. Acc.' becomes 'stracc' |
| CrawlStore.DropDotsExample | fmcrawler_sql.py:322 | deleting dots from 'Str. Acc.' gives 'Str Acc' |
| CrawlStore.DropSpacesExample | fmcrawler_sql.py:322 | deleting spaces from 'Str Acc' gives 'StrAcc' |
| CrawlStore.LowerExample | fmcrawler_sql.py:322 | lowercasing 'StrAcc' gives 'stracc' |
| CrawlStore.InsertStatement | fmcrawler_sql.py:254-264 | the statement built key by key is the column list followed by the placeholders |
| CrawlStore.AppendColumns | fmcrawler_sql.py:256-262 | the loop appends each stripped key with `, ` after all but the last |
| CrawlStore.CountConcat | fmcrawler_sql.py:264 | counting `?` distributes over concatenation |
| CrawlStore.CountAbsent | fmcrawler_sql.py:264 | a text without `?` has none |
| CrawlStore.CountRepeat | fmcrawler_sql.py:264 | `'?, '*n` has n placeholders |
| CrawlStore.StripKeyNoMark | fmcrawler_sql.py:322 | stripping adds no `?` |
| CrawlStore.ColumnTextNoMark | fmcrawler_sql.py:256-262 | the column list has no `?` |
| CrawlStore.PlaceholdersCount | fmcrawler_sql.py:264 | the placeholder list of n keys has n `?` |
| CrawlStore.OnePlaceholderPerKey | fmcrawler_sql.py:256-266 | column list and placeholders together hold exactly one `?` per key, matching the value tuple |
| CrawlStore.AddUrls | fmcrawler_sql.py:193-204 | INSERT OR REPLACE (flag 1) rewrites each URL to (NULL, 1); INSERT OR IGNORE (flag 0) keeps every existing row and adds new URLs as (NULL, 0) |
| CrawlStore.QueueIgnoresKnown | fmcrawler_sql.py:197-204 | queueing adds exactly the new URLs to the queue, never un-processing a known one |
| CrawlStore.MarkDequeues | fmcrawler_sql.py:194-204 | marking takes the URLs off the queue and leaves them processed |
| CrawlStore.LinkFighter | fmcrawler_sql.py:274-275 | the INSERT OR IGNORE of (url, fighter_id) adds at most that URL and changes no row or queue entry |
| CrawlStore.RowOf | fmcrawler_sql.py:250-266 | the inserted row holds each stat under its stripped column name |
| CrawlStore.ReplaceFighterUnique | fmcrawler_sql.py:268 | INSERT OR REPLACE keeps name and url unique, stores the row, and deletes exactly the rows that clash with it |
| CrawlStore.ClashSymmetric | fmcrawler_sql.py:268 | a clash on name or url is symmetric |
| CrawlStore.BoutIdSymmetric | fmcrawler_sql.py:213-217 | a bout gets the same id from either fighter's page |
| CrawlStore.StoreBoutKeeps | fmcrawler_sql.py:212-246 | a stored bout is never overwritten; the only new key is this bout's, and its row holds the two fighters |
| CrawlStore.BoutRowPair | fmcrawler_sql.py:241 | the value tuple stores the two fighters |
| CrawlStore.MirroredBoutIgnored | fmcrawler_sql.py:227-246 | the same bout from the opponent's page passes the collision check and changes nothing |
| CrawlStore.StoreBoutsKeeps | fmcrawler_sql.py:210-246 | over a page's bouts, stored rows are kept and every bout has its row |
| CrawlStore.StoreBoutsAborts | fmcrawler_sql.py:212-232 | the first failing bout ends the loop with its error |
| CrawlStore.FighterWriteMarksOwnUrl | fmcrawler_sql.py:274-279 | the page's own URL ends (NULL, 1) even if it is among its links; every link is known; the queue gains the new links minus the page's URL; bouts are untouched |
| CrawlStore.PageStatsUrl | fmcrawler_sql.py:293 | the written stats carry the page's URL |
| CrawlStore.PageWriteOutcome | fmcrawler_sql.py:283-303 | the empty-page sentinel writes nothing; otherwise the page parsed and its URL is processed |
| CrawlStore.PageWriteLinks | fmcrawler_sql.py:283-303 | after a page write every link is known and every bout is stored under its key |
| CrawlStore.VisitedStep | fmcrawler_sql.py:128-140 | one visited URL extends the round's processed prefix |
| CrawlStore.VisitedAll | fmcrawler_sql.py:128-140 | after the whole snapshot, every URL with a non-empty page is processed |
| CrawlStore.GrowsReflexive | fmcrawler_sql.py:120-142 | the growth relation is reflexive |
| CrawlStore.GrowsTransitive | fmcrawler_sql.py:120-142 | and transitive |
| CrawlStore.PageWriteGrows | fmcrawler_sql.py:283-303 | a page write loses no URL, un-processes none, overwrites no bout |
| CrawlStore.FighterWriteGrows | fmcrawler_sql.py:249-279 | so does the fighter write |
| CrawlStore.PageStep | fmcrawler_sql.py:283-303 | a page write grows the store and processes the URL unless the page is empty |
| CrawlStore.AddUrlsStep | fmcrawler_sql.py:203-204 | adding one more URL equals adding the enlarged set |
| CrawlStore.AddOne | fmcrawler_sql.py:204 | one `execute` is the one-URL table update |
| CrawlStore.MembersListed | fmcrawler_sql.py:201 | a bare string is a one-element set; a list stands for its members |
| CrawlStore.AddNext | fmcrawler_sql.py:203-204 | the loop's next write is the table update for one more URL |
| CrawlStore.Store.constructor | fmcrawler_sql.py:21-78 | three empty tables; the next row id is 1 |
| CrawlStore.Store.GetUrlList | fmcrawler_sql.py:149-169 | each URL with processed = 0 exactly once (NULL is not 0) |
| CrawlStore.Store.AddToUrlList | fmcrawler_sql.py:171-204 | the URL table becomes the map update of its members; no other table changes |
| CrawlStore.Store.RecordUrls | fmcrawler_sql.py:274-279 | the link row, the queued links, then the own URL marked processed, in that order |
| CrawlStore.Store.WriteFighter | fmcrawler_sql.py:249-279 | succeeds exactly as the fighter-write function, with its new state or its error |
| CrawlStore.Store.InsertFighter | fmcrawler_sql.py:266-279 | the fighter row under the next id, then the URL updates |
| CrawlStore.Store.WriteFights | fmcrawler_sql.py:210-246 | the bouts table becomes the bout fold; other tables unchanged |
| CrawlStore.Store.Rollback | fmcrawler_sql.py:122 | restores the last committed state |
| CrawlStore.Store.WritePage | fmcrawler_sql.py:283-303 | the page write on the fetched page; on error the store is as before |
| CrawlStore.Store.Visit | fmcrawler_sql.py:138 | the store only grows; on success the URL is processed unless its page is empty |
| CrawlStore.Store.Round | fmcrawler_sql.py:128-140 | the store only grows; on success every URL of the snapshot with a non-empty page is processed |
| CrawlStore.Store.Crawl | fmcrawler_sql.py:118-146 | the store only grows; on success the start page is processed when it is non-empty, and the result lists exactly the URLs still queued |
| FightProcess.FlippedIff | fmprocess.py:223 | `sorted(fighters) != fighters` exactly when the second name sorts first |
| FightProcess.ProcessFight | fmprocess.py:186-236 | the deep copy with swaps and pops equals the neutral-record function |
| FightProcess.SwapFields | fmprocess.py:225-230 | every list field except Event gets its two entries swapped from the original; other fields stay |
| FightProcess.NeutralShape | fmprocess.py:205-236 | Fighter and outcome removed, Result and Fighters added; Fighters is the sorted pair; Result is Fighter[0] on win, Fighter[1] on loss, else 'Draw'; fields swapped exactly when the pair was out of order |
| FightProcess.NeutralPairSorted | fmprocess.py:209 | the sorted pair is a permutation in increasing order |
| FightProcess.NeutralMirror | fmprocess.py:205-236 | for two different names, a bout and its mirror image from the opponent's page give the same neutral record |
| FightProcess.FreshCounts | fmprocess.py:258 | the filter keeps every copy of a fight not seen before and no copy of a seen one |
| FightProcess.GetFights | fmprocess.py:238-261 | the loop over fighters equals the gathering fold |
| FightProcess.ProcessAll | fmprocess.py:257 | the comprehension equals the processing fold |
| FightProcess.FilterSeen | fmprocess.py:258 | the filter comprehension equals the filter function |
| FightProcess.NeutralAllAborts | fmprocess.py:257 | the first failing bout ends the comprehension |
| FightProcess.GatheredAborts | fmprocess.py:256-259 | the first failing fighter ends the gathering |
| FightProcess.NeutralAllEach | fmprocess.py:257 | processing keeps the length and processes each bout in place |
| FightProcess.FreshMember | fmprocess.py:258 | a fight is kept exactly when it is current and was not seen |
| FightProcess.GatheredCovers | fmprocess.py:255-261 | every fighter's every processed bout is in the result |
| FightProcess.GatheredSound | fmprocess.py:255-261 | everything in the result is some fighter's processed bout |
| FightGraph.InsertSpec | fmprocess.py:79 | inserting into a sorted list keeps it sorted and adds exactly that name |
| FightGraph.InsertMembers | fmprocess.py:79 | the insertion adds exactly that name |
| FightGraph.InsertIncreasing | fmprocess.py:79 | the insertion keeps the list sorted |
| FightGraph.InsertAbove | fmprocess.py:79 | a name below all members of the inserted list is below all of the result |
| FightGraph.ConsIncreasing | fmprocess.py:79 | a smaller name prepended keeps a list sorted |
| FightGraph.UniqueSpec | fmprocess.py:79 | `np.unique` is sorted, without repeats, with exactly the input names |
| FightGraph.IncreasingDistinct | fmprocess.py:79 | a strictly sorted list has no repeats |
| FightGraph.FillSpec | fmprocess.py:85-96 | for readable fights, the loop succeeds exactly when there is no fight or the first one is decisive; afterwards the last entry set is one of the 1 entries, or none for no fights |
| FightGraph.FillOnes | fmprocess.py:85-96 | the 1 entries are exactly (loser, winner) of the decisive fights |
| FightGraph.AllNamesCover | fmprocess.py:74-76 | every fight's two names are collected |
| FightGraph.FightMatrixSpec | fmprocess.py:56-98 | the matrix is indexed by the sorted names of all fights; its 1 entries are exactly the (loser, winner) pairs and lie inside the index |
| FightGraph.ReadableFights | fmprocess.py:85-89 | a successful matrix read every fight's names and Result |
| FightGraph.FillReadsResults | fmprocess.py:89 | each fight's Result is read |
| FightGraph.CreateFightMatrix | fmprocess.py:56-98 | the two loops equal the matrix function |
| FightGraph.CollectNames | fmprocess.py:74-76 | the `extend` loop equals the name fold |
| FightGraph.FillMatrix | fmprocess.py:85-96 | the filling loop equals the fill fold |
| FightGraph.AllNamesAborts | fmprocess.py:75-76 | the first fight without names ends the loop |
| FightGraph.FillAborts | fmprocess.py:85-96 | the first failing fight ends the loop |
| FightGraph.GraphOfEdges | fmprocess.py:128-135 | one node per column and an edge i→j exactly where the entry is 1 |
| FightGraph.FightGraphEdges | fmprocess.py:100-137 | the graph of the fights is well formed, with an edge from loser to winner of each decisive fight and no other |
| FightGraph.WalkWithin | fmprocess.py:168-173 | the end of any walk of at most K edges from the base is within K hops |
| FightGraph.WithinWalk | fmprocess.py:168-173 | every node within K hops is the end of such a walk |
| FightGraph.WithinGrows | fmprocess.py:168-173 | the K-hop set grows with K |
| FightGraph.WithinNodes | fmprocess.py:168-173 | the K-hop set is inside the graph |
| FightGraph.RemoveFar | fmprocess.py:167-174 | removing a node farther than K hops changes no distance up to K, so removal order does not matter |
| FightGraph.RemoveNear | fmprocess.py:167-174 | the same, with the bound at the current distance |
| FightGraph.SuccessorsWithout | fmprocess.py:174 | removing a node outside a set and its successors keeps the successors |
| FightGraph.PrunedSpec | fmprocess.py:140-176 | the pruned graph is a well-formed subgraph; it holds the base when the graph is non-empty, the end of every walk of at most K edges from the base, and nothing farther |
| FightGraph.PruneGraph | fmprocess.py:161-176 | the node-removal loop on the copy equals the K-hop restriction, or NodeNotFound for a missing base |
| Matchup.ColumnsSpec | fmprocess.py:337 | two columns per feature, f1_X then f2_X, and distinct for distinct features |
| Matchup.FullFeatureList | fmprocess.py:333-337 | 32 distinct columns, from f1_Height to f2_Cum time |
| Matchup.Float | fmprocess.py:387-388 | `float()` of a number is that number and of None a TypeError; of text it succeeds exactly when the text parses |
| Matchup.Last4 | fmprocess.py:356 | `s[-4:]` is the suffix of length min(4, len s) |
| Matchup.Single | fmprocess.py:348-388 | STANCE is 0 exactly for 'Orthodox', else 1; DOB is NaN for `--`, else the number in its last 4 characters; Wins, Losses and Cum time are the counts and the time sum; a missing stat is a KeyError |
| Matchup.FeaturePairSingles | fmprocess.py:343-388 | each feature's pair is the two fighters' values |
| Matchup.FeaturesSingles | fmprocess.py:343-388 | the row holds f1 then f2 of each feature in turn, failing exactly when one fails |
| Matchup.MatchupSpec | fmprocess.py:312-390 | 32 values, column 2j the first fighter's feature j and 2j+1 the second's |
| Matchup.MatchupSwap | fmprocess.py:312-390 | swapping the fighters swaps each f1/f2 pair |
| Matchup.BuildMatchup | fmprocess.py:312-390 | the loop equals the matchup function |
| Matchup.FeaturesAborts | fmprocess.py:343-388 | the first failing feature ends the loop |
| Sherdog.ParseFighterStats | fetch.py:60-95 | the metric dict has exactly the metrics as keys, each read and converted without the `--` guard; it fails exactly when one metric fails |
| Sherdog.StatsOfSpec | fetch.py:66-95 | the same for any metric list and either converter set |
| Sherdog.GuardOnlyRescues | fetch.py:97-124 | the two files' converters differ only where the guard turns a failure (or, for Height, a value) into 0 |
| Sherdog.HeightGuard | fetch.py:101-108 | for Height the guard only replaces the result by 0 |
| Sherdog.ReachGuard | fetch.py:110-115 | for Reach the guard only rescues `--` |
| Sherdog.WeightGuard | fetch.py:118-124 | for Weight the guard only rescues `--` |
| Sherdog.NotANumber | fetch.py:113 | `float('--')` fails |
| Sherdog.BadToken | fetch.py:102-104 | a `--` token makes the unguarded conversion fail unless it comes after the two tokens read; the guarded one gives 0 |
| Sherdog.Bound | fetch.py:246 | the bound of a Python slice, for a non-negative index |
| Sherdog.Slice | fetch.py:246 | a slice is never longer than the list |
| Sherdog.LinesRead | fetch.py:178-199 | the loop reads through the first `module black` line, or the whole page |
| Sherdog.OneSection | fetch.py:179-184 | at most one section is current |
| Sherdog.SlotStep | fetch.py:186-196 | each table index is updated by its own tag in its own section |
| Sherdog.SlotIsLast | fetch.py:186-196 | a set index is the last line with that tag in that section |
| Sherdog.SlotUnset | fetch.py:186-196 | an unset index means no such line was read |
| Sherdog.Cells | fetch.py:203-204 | the non-empty stripped lines |
| Sherdog.RowDict | fetch.py:206 | one record's keys are the headers |
| Sherdog.RowCount | fetch.py:205 | the number of records leaves room for the header row and that many rows |
| Sherdog.RowDictReads | fetch.py:206 | each header maps to the cell below it |
| Sherdog.TableRecordsSpec | fetch.py:201-206 | (corrected) one record per row below the header, each mapping the six headers to its row |
| Sherdog.RecordsAsWrittenSpec | fetch.py:205-206 | as written, there are len/6 - 1 records, record k maps header i to cell 6k + i, so record 0 is the header row itself and each later record is the corrected record before it |
| Sherdog.RecordsAsWrittenLoseRow | fetch.py:205-206 | as written, a one-row table gives a record that maps each header to itself |
| Sherdog.SectionLines | fetch.py:202 | a section slice is the lines from its table start through its stop |
| Sherdog.ParseFightHistory | fetch.py:171-220 | the scan returns the two sections' records as the comprehension builds them (record k from cell 6k + i), or NameError for a table without a stop |
| Sherdog.HistoryLine | fetch.py:179-199 | one line updates the section flags and indices as the section step does |
| Sherdog.SectionRecords | fetch.py:201-217 | a section's records as written, record k reading cell 6k + i, or [] without a table |
| Sherdog.GatherCells | fetch.py:203-204 | the line loop collects exactly the non-empty stripped lines of the section |
| Sherdog.ReadRecords | fetch.py:205-206 | the outer comprehension builds exactly the as-written records, one per k below len/6 - 1 |
| Sherdog.ReadRow | fetch.py:206 | the inner comprehension over the six headers builds the dict at the given shift |
| Sherdog.SpanEnd | fetch.py:300-307 | the offset of the first `</span>`, bounded by 100 |
| Sherdog.SpanEndSpec | fetch.py:300-307 | no `</span>` before it; one at it unless the bound was hit |
| Sherdog.RawSpan | fetch.py:296-309 | the characters from the tag's end up to the first `</span>` (at most 100); IndexError when the line ends first |
| Sherdog.CountLines | fetch.py:292-296 | at most one text per line |
| Sherdog.SpansSpec | fetch.py:288-313 | one text per matching line; fails exactly when a matching line ends before its span closes, with IndexError |
| Sherdog.ParseSpanclass | fetch.py:288-313 | the loop over lines equals the span fold |
| Sherdog.SpanLine | fetch.py:293-311 | one line's text, or none without a match |
| Sherdog.CollectSpan | fetch.py:297-309 | the bounded character loop with its `break` equals the raw span |
| Sherdog.SpanEndStep | fetch.py:304-307 | the loop stops at `</span>` and otherwise moves on |
| Sherdog.SpansAborts | fetch.py:292-311 | the first failing line ends the loop |
| Biography.LastLine | fetch.py:238-242 | the last marker line found lies before the scan bound |
| Biography.LastLineSpec | fetch.py:238-242 | it holds the marker, no later line does, and None means none does |
| Biography.PropRulesDistinct | fetch.py:228-234 | the eight labels are distinct |
| Biography.WindowAtSpec | fetch.py:238-246 | (corrected) NameError('start') exactly without a vcard; otherwise the window runs from 300 lines above the vcard, clamped at 0, to the line before the biography marker (stop -1 for a marker on line 0, the whole page without one) |
| Biography.SliceStop | fetch.py:246 | a slice with a stop is a contiguous run of the page |
| Biography.WindowAsWrittenAtSpec | fetch.py:238-246 | as written, NameError('start') exactly without a vcard; otherwise the window starts 300 lines above the vcard or, for a vcard among the first 300 lines, at len(page) + i - 300 counted from the top (clamped at 0), and stops on the line before the biography marker |
| Biography.WindowsAgree | fetch.py:240-246 | with the vcard at least 300 lines down, the window as written and the corrected window are the same |
| Biography.WindowWraps | fetch.py:240-246 | as written, a negative start counts from the page's end and the window comes out empty; the corrected window is the first b-1 lines |
| Biography.PropValue | fetch.py:252-269 | kind 2 takes the number in the first word (an empty value stays ''); kind 1 parses the whole value or gives None; others keep the text |
| Biography.NamedSnoc | fetch.py:249-250 | the labels a line holds, one more rule at a time |
| Biography.ApplyRuleSpec | fetch.py:250-273 | a label on the line sets its key from the line its offset names; nothing else changes |
| Biography.LinePropsKeys | fetch.py:249-273 | one line adds exactly the labels it holds |
| Biography.LinePropsKeeps | fetch.py:249-273 | keys for other labels keep their values |
| Biography.LinePropsValues | fetch.py:249-273 | each label on the line is read from its offset line |
| Biography.WindowPropsLabels | fetch.py:248-273 | every key is a label |
| Biography.WindowPropsKeys | fetch.py:248-273 | a label is a key exactly when some window line holds it |
| Biography.WindowPropsValues | fetch.py:248-273 | its value is read below the LAST line that holds it, so later matches overwrite earlier ones |
| Biography.NamedByIndex | fetch.py:249-250 | a label counts for a line exactly when the line holds it |
| Biography.LinePropsAborts | fetch.py:249-273 | the first failing label ends the line |
| Biography.WindowPropsAborts | fetch.py:248-273 | the first failing line ends the scan |
| Biography.Assemble | fetch.py:278-285 | Name is the first `fn` span (IndexError if none); Nickname the first `nickname` span or 'None'; other keys are the labels |
| Biography.PropRulesNotNames | fetch.py:228-234 | no label is Name or Nickname |
| Biography.PropsOfWindowSpec | fetch.py:248-285 | each label is present exactly when a window line holds it, read below its last such line |
| Biography.PropsOfWindowKeys | fetch.py:248-285 | every key besides Name and Nickname is a label |
| Biography.PropsAsWrittenLoseBiography | fetch.py:240-285 | as written, a vcard fewer than 300 lines down gives an empty window and IndexError on `name[0]` |
| Biography.WindowKeepsBiography | fetch.py:240-246 | (corrected) with a vcard fewer than 300 lines down, the window is the first b-1 lines, b being the biography marker's line |
| Biography.WindowKeepsVcard | fetch.py:240-246 | (corrected) the window holds the vcard line |
| Biography.EmptyWindow | fetch.py:278-284 | an empty window fails with IndexError |
| Biography.ParseProps | fetch.py:227-285 | the window as written, the label scan and the name lookups equal the as-written props function |
| Biography.FindWindow | fetch.py:238-246 | the marker scan and the slice `page[start:stop]`, negative start included, equal the as-written window |
| Biography.ScanMarks | fetch.py:238-242 | the two marker indices are the last lines that hold them |
| Biography.ReadLabels | fetch.py:248-273 | the label loop equals the window fold |
| Biography.ReadLine | fetch.py:249-273 | the inner label loop equals the line fold |
| WinLoss.FirstLine | fetch.py:128-129 | the first marker line found lies on the page at or after the scan start |
| WinLoss.FirstLineSpec | fetch.py:128-129 | it holds the marker, no earlier line does, and None means none does |
| WinLoss.FindFirst | fetch.py:128-129 | the comprehension's first element, as a loop |
| WinLoss.RecordKey | fetch.py:142-145 | the total is stored under its own name; other labels under the half's prefix followed by the label |
| WinLoss.RecordValue | fetch.py:137-145 | the total parses the whole text; other labels the first word, IndexError without one |
| WinLoss.NamedKeysStep | fetch.py:135-136 | the keys a line names, one rule at a time |
| WinLoss.RecordLineKeys | fetch.py:135-145 | a line adds exactly the keys of the labels it holds; a line beyond the page is an IndexError |
| WinLoss.RecordLineValues | fetch.py:135-145 | each label on the line is read from the line its offset names |
| WinLoss.RecordLineInPage | fetch.py:136 | a line read successfully lies on the page |
| WinLoss.RecordScanLength | fetch.py:133-148 | a scan that succeeds without reaching its key count had all 100 lines on the page |
| WinLoss.RecordLineGrows | fetch.py:135-145 | a line only adds keys |
| WinLoss.RecordScanGrows | fetch.py:133-148 | the scan only adds keys |
| WinLoss.ScanStep | fetch.py:133-148 | reading one line then the rest is reading from that line |
| WinLoss.RecordScanValues | fetch.py:133-148 | every value of a scan was read on one of its lines |
| WinLoss.ScanNext | fetch.py:147-148 | a scan that goes on after a line keeps that property |
| WinLoss.ScanStop | fetch.py:147-148 | a scan that breaks after a line keeps that property |
| WinLoss.FightRecordNeedsGraphs | fetch.py:128-129 | a page without the win or the loss graph fails with IndexError |
| WinLoss.BreakdownValues | fetch.py:127-169 | every value was read in the win scan or in the loss scan |
| WinLoss.BreakdownLength | fetch.py:151-166 | if the loss scan does not reach 8 keys it read 100 lines of the page |
| WinLoss.ParseFightrecord | fetch.py:127-169 | the marker search and the two scans equal the record function |
| WinLoss.ScanBoth | fetch.py:127-169 | the two scans, each from its marker, equal the breakdown |
| WinLoss.ScanRecord | fetch.py:133-148 | the 100-line loop with its `break` equals the scan fold |
| WinLoss.ReadRecordLine | fetch.py:135-145 | the inner label loop equals the line fold |

## Left out

- Network and search: `get_url` in both files queries Google. The `urlopen` calls in `get_page`, `parse_sherdog` and `parse_fightmetric` are replaced by the `fetch` parameter, which returns a page or nothing per attempt.
- SQLite connections, the DDL of `init_db`, and commits: the tables are maps. An exception in a page write leaves the store as it was before that page (`Store.WritePage`), since the source commits only after a page completes.
- Python's `hash` is the parameter `hash`, assumed only to be a function of the key string.
- The random pause between fetches is timing only.
- fmcrawler.py is pickle and file I/O around network calls; classifier.py and predictions.py are model training and printing.
- `page_rank`, `compute_graph_metrics` and the NaN imputation of `build_features` are iterative float numerics on scipy and pandas.
- Floating point: numbers are exact reals, and `float()` accepts an optional sign, digits, and an optional point with digits. Exponents, `inf` and `nan` spellings are not accepted.
- The `pdb` breakpoint in `parse_page` cannot be reached: the name lookup there does not fail once a bout exists.
- Dict iteration order: Python 2 iterates a dict literal in hash order. The model uses the order in which the literal is written, for `parse_props`, `parse_fightrecord` and the INSERT key order. Only which error is raised first can differ; the key/column correspondence does not depend on the order.
- Fightmetric.FixFighterNames: the source repairs the names in place on `current_fight` right before appending it, and the model appends the repaired copy. The two agree because each bout dict is appended once and never touched afterwards: after the append `open_outcome` is False, and only a new `win<i`/`loss<i` line, with a new dict, reopens a row.
- Sherdog.SpanLine: the `re.search` pattern `<span class="...">` has no special characters for the two class names used, so it is matched as a literal.
- WinLoss.FindFirst stops at the first marker line. The comprehension scans the whole page, and both give the same index.
- Biography.PropValue: the misspelt `var = None` in the source is modelled as written. An empty kind-2 value therefore stays `''`.
- FightGraph.PruneGraph requires a well-formed graph, in which every edge joins two nodes. A networkx graph always is one.
- FightGraph.PruneGraph takes the hop bound K as a natural number. With a negative K the source removes the base itself and then raises NodeNotFound from `has_path`; no caller passes one.
- Process copies: `process_fight` works on a deep copy and `prune_graph` on `G.copy()`. Dafny values are immutable, so "the input is not modified" holds by construction and is not stated as a separate property.
- Matchup: the float rounding of `float(cf1)` is not modelled. The remaining float features are carried as exact reals or `NaN`.

## Findings

The operations follow the code as written: `Sherdog.ParseFightHistory` builds its records with `RecordsAsWritten`, and `Biography.ParseProps` slices with the wrapping start of `WindowAsWrittenAt`. The corrected definitions stand beside them: `Sherdog.TableRecords`, and `Biography.WindowAt`, `Window` and `Props`. Each comes with its own lemmas, and `Biography.WindowsAgree` shows where the two windows coincide.

| source | as written | input that shows it | evidently intended | confidence | as-written member | corrected member |
|---|---|---|---|---|---|---|
| fetch.py:205-206 | record k of a fight-history table maps header i to line i+6k, so record 0 maps every header to itself, and the last row is never read | a table whose non-empty stripped lines are 6 distinct headers then one row of 6 cells: the result is one record `{h: h}` | record k maps header i to line i+6(k+1), the k-th row below the header | not executed | Sherdog.RecordsAsWrittenLoseRow | Sherdog.TableRecordsSpec |
| fetch.py:240-246 | `start = i-300` goes negative when the vcard is fewer than 300 lines down, and the slice then counts from the end of the page | a 1000-line page with the vcard on line 200 and the biography marker on line 400: `page[-100:399]` is empty and `name[0]` raises IndexError | the start clamped at 0, keeping the lines from the page's top to 1 above the biography marker | not executed | Biography.PropsAsWrittenLoseBiography | Biography.WindowKeepsBiography |
