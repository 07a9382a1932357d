# M3U playlist reducers, modelled in Dafny

The repository has two scripts that shrink an IPTV playlist in M3U format.
Both read the playlist line by line and pair each `#EXTINF:` line with the
address line after it. Each channel name gets a quality rank and a
normalised base name. Channels are grouped by base name, the best of each
group are kept, and the survivors are written back as `#EXTM3U\n` followed by
`line\nurl\n` for every channel.

- `m3u-processor.js`, class `M3UProcessor` (module `TopThree`):
  - `extractResolution` ranks a name by a first-match ladder of six patterns, giving a (priority, pixels) pair.
  - `extractBaseName` applies a chain of replaces to the resolution patterns, the quality words and the bracketed tags, then collapses whitespace, trims and lower-cases. `HD` is replaced before `FHD` and `UHD`, so those two lose only their `HD` and leave their first letter behind.
  - `parseExtInf` pulls the name out of an `#EXTINF:` line; when its pattern fails, the whole line stands in.
  - `parseM3U` pairs lines into `this.channels`.
  - `processChannels` groups by base name, sorts every group by priority and then pixels (best first), and appends its first three to `this.processedChannels`.
  - `generateOutputFile` builds the output text.
- `process-m3u.js`, function `processM3UFile` (module `ProcessM3U`), step by step:
  - the same parse loop, except that an `#EXTINF:` line whose pattern fails is ignored;
  - a four-tier rank (4K/UHD 4, 1080p/FHD 3, 720p/HD 2, anything else 0) and the base name;
  - a filter that keeps ranks 2 to 4;
  - the single best channel of every base name;
  - a global sort by rank;
  - a greedy size cutoff on the text length;
  - the output text.

Shared pieces:
- `Text`: JavaScript whitespace, `trim`, `toLowerCase` and `split('\n')`.
- `Patterns`: the regular expressions, as leftmost-match functions and global replaces.
- `Playlist`: line kinds, the `#EXTINF:` name pattern, and the output text with its length.
- `Sorting`: a stable, descending sort, specified by a function and carried out in place on an array.
- `Grouping`: the `groups[b].push(c)` dictionary, with labels in first-appearance order.

Strings are sequences of UTF-16 code units, so `|s|` is JavaScript's
`s.length`. The `/i` flag folds ASCII letters only. That is exactly what
a non-Unicode JavaScript regular expression does for these patterns.

Some consequences of the code that the model proves:
- In `extractResolution`, `/HD/i` is tried before `/FHD/i` and `/UHD|4K/i`. Priority 4 therefore never occurs, and priority 5 comes only from `4K` (`KeywordLadder`).
- The two parsers pair the same lines whenever every `#EXTINF:` line matches the name pattern (`ScanAgrees`). Any difference comes from an `#EXTINF:` line the pattern rejects; `Divergence` shows one.

Details of the code worth noting:
- `<n>p` is tried before `WxH` when a resolution is read from a name.
- The `M3UProcessor` keyword ladder tries `HD` before `FHD` and `UHD`.
- Both base-name chains replace `\s*HD\s*` before `\s*FHD\s*` and `\s*UHD\s*`. The later two replaces therefore never match anything (`HdFirst`). An `FHD` or `UHD` name keeps its `F` or `U`: `TV FHD` has base name `tv f` and `TV HD` has `tv` (`FhdKeepsLetter`). So the `HD` and `FHD` versions of a channel land in different groups, and both survive the reduction in each script.
- `process-m3u.js` sorts groups by rank alone, with no pixel tie-break.
- An `#EXTINF:` line that fails the pattern is dropped by `process-m3u.js`. In `M3UProcessor` it makes an entry named by the raw line.
- The budget counts `.length`, in UTF-16 code units, not bytes.
- The scripts hard-code the keep counts 3 and 1 and filter by nothing else.

## Model

| member | source | states |
|---|---|---|
| TopThree.ExtractResolution | m3u-processor.js:17-56 | priority -1 only ever comes as the whole record `{pixels: 0, priority: -1, original: 'Unknown'}` (with `ResolutionLadder` and `KeywordLadder`: exactly when no pattern matches) |
| TopThree.ResolutionLadder | m3u-processor.js:18-39 | priority 1 exactly when `(\d{3,4})p` matches, with pixels `16*n*n` of the matched height `n`; priority 2 exactly when it does not but `(\d{3,4})x(\d{3,4})` does, with pixels `W*H` of the first `WxH` token; with neither, the keyword ladder decides |
| TopThree.KeywordLadder | m3u-processor.js:21-29 | after the numeric patterns: priority 3 iff the name contains `HD` (any case); 4 never; 5 iff no `HD` but `4K`; 0 iff neither but `SD`; -1 iff none of them |
| TopThree.KeywordPixels | m3u-processor.js:42-50 | priorities 3, 5 and 0 carry the map's pixel counts 1280·720, 3840·2160 and 640·480 |
| TopThree.LinePixels | m3u-processor.js:35-39 | between two `<n>p` names, pixels order exactly as the heights do |
| TopThree.ExtractBaseName | m3u-processor.js:61-77 | the base name has no upper-case letter, no whitespace at either end and no two whitespace characters side by side |
| Patterns.HdFirst | m3u-processor.js:66-68 | after the `\s*HD\s*` replace no `HD` is left in any string, so the `\s*FHD\s*` and `\s*UHD\s*` replaces that follow change nothing |
| TopThree.FhdKeepsLetter | m3u-processor.js:63-76 | `TV FHD` has base name `tv f` and `TV HD` has `tv`: the `F` of `FHD` stays behind |
| TopThree.BaseNameIgnoresCase | m3u-processor.js:63-76 | names equal up to ASCII letter case have the same base name |
| Patterns.NormaliseIgnoresCase | m3u-processor.js:63-76 | the rewrite chain followed by lower-casing ignores ASCII case in its input, for any list of `/i` rewrites |
| Playlist.ExtInfSearchLeftmost | m3u-processor.js:155 | `line.match(/#EXTINF:-?\d+\s*(.+)/)` fails iff the pattern matches at no position; otherwise the capture is taken at the leftmost matching position |
| Playlist.ExtInfTrimmed | m3u-processor.js:155 | on a trimmed `#EXTINF:` line the pattern matches at the start iff a digit follows the tag (and optional `-`) and at least one character follows that digit |
| TopThree.ParseExtInf | m3u-processor.js:153-175 | the original line is always kept; when the pattern fails, the name is the whole line and the resolution is Unknown |
| TopThree.ParseExtInfCases | m3u-processor.js:155-174 | a well-formed `#EXTINF:` line is named by its trimmed capture; a failing one falls back to (line, lower-cased line, Unknown, line) |
| TopThree.ScanAll | m3u-processor.js:129-145 | reading the lines from the start with a pending slot yields exactly the pairs of `PairsFrom(lines, None)` |
| TopThree.ReadChannels | m3u-processor.js:127-145 | the loop with `currentChannel` produces the channels of those pairs, in input order, for any entry parser |
| TopThree.M3UProcessor.ParseM3U | m3u-processor.js:124-148 | `this.channels` grows by exactly the parsed channels; `processedChannels` is untouched |
| TopThree.SkipInert | m3u-processor.js:132-144 | blank lines and other `#` lines leave the pending entry as it is |
| TopThree.Pairing | m3u-processor.js:132-143 | an `#EXTINF:` line, then inert lines, then an address line give one channel of that line and address; the slot is then empty |
| TopThree.Overwrite | m3u-processor.js:132-138 | a second `#EXTINF:` line before any address replaces the first, which is dropped |
| TopThree.Orphan | m3u-processor.js:139 | an address line with no pending entry is ignored |
| TopThree.ParseCount | m3u-processor.js:129-145 | there are at most as many channels as `#EXTINF:` lines |
| TopThree.PairsWellFormed | m3u-processor.js:130-143 | every pair holds a trimmed `#EXTINF:` line and a trimmed, non-empty address not starting with `#` |
| TopThree.M3UProcessor.constructor | m3u-processor.js:9-12 | both lists start empty |
| Grouping.GroupBy | m3u-processor.js:184-194 | the dictionary holds exactly the labels seen, each mapped to its channels in input order; the key order is first appearance |
| Grouping.GroupPresent | m3u-processor.js:189-193 | a label is a key exactly when its group is not empty |
| Sorting.SortInPlace | m3u-processor.js:201-211 | the array ends as the stable descending sort of its old contents |
| Sorting.SortDescCorrect | m3u-processor.js:201-211 | the sort is descending, a permutation, and keeps elements of equal rank in input order |
| Sorting.SortDescSorted | m3u-processor.js:201-211 | a sequence that is already descending is left unchanged |
| TopThree.TopOfGroup | m3u-processor.js:201-214 | one group sorted in place, then its first three |
| TopThree.M3UProcessor.ProcessChannels | m3u-processor.js:180-228 | `processedChannels` grows by the kept channels of every group, groups in first-appearance order; `channels` is untouched |
| TopThree.GroupOfReduce | m3u-processor.js:199-225 | the output's channels of base name `b` are exactly that group's first three after the sort, so there are `min(3, group size)` of them |
| TopThree.KeptDominates | m3u-processor.js:201-214 | every kept channel's (priority, pixels) is lexicographically at least every dropped sibling's; kept and dropped together are the whole group |
| TopThree.ReduceSubMultiset | m3u-processor.js:186-225 | the processed channels are a sub-multiset of the parsed ones |
| TopThree.M3UProcessor.GenerateOutput | m3u-processor.js:236-241 | the text is `#EXTM3U\n` followed by `originalLine\nurl\n` for each processed channel, in order |
| TopThree.RoundTrip | m3u-processor.js:236-241 | parsing the written text gives back exactly the channels written, when each was produced by `parseExtInf` from a well-formed pair |
| TopThree.OutputParses | m3u-processor.js:236-241 | for any playlist without embedded newlines, the output parses back to exactly the processed channels |
| TopThree.M3UProcessor.ProcessContent | m3u-processor.js:90-103 | splitting the content, parsing, processing and writing compose as the three contracts say |
| ProcessM3U.StartSomewhere | process-m3u.js:42-49 | a line starts an entry iff the `#EXTINF:` pattern matches at some position of it (the regex search is unanchored) |
| ProcessM3U.StartTrimmed | process-m3u.js:42-49 | a trimmed `#EXTINF:` line with a digit after the tag (and its optional minus) and one more character after it starts an entry named by the trimmed capture of the match at the start, with the trimmed line kept |
| ProcessM3U.ParseLines | process-m3u.js:37-56 | the loop with `currentChannel` produces exactly the channels of `Parse(lines)` |
| ProcessM3U.FailedEntryIgnored | process-m3u.js:40-49 | an `#EXTINF:` line that fails the pattern changes neither the channels nor the pending entry |
| ProcessM3U.AddressCompletes | process-m3u.js:50-55 | an address line completes the pending entry and empties the slot |
| ProcessM3U.Divergence | process-m3u.js:40-55 | after a failing `#EXTINF:` line, the next address attaches to the earlier entry; `M3UProcessor` attaches it to the failing line instead |
| ProcessM3U.TopThreeTakesEntry | m3u-processor.js:132-138 | in `M3UProcessor` every `#EXTINF:` line, matching or not, becomes the pending entry |
| ProcessM3U.TopThreeCompletes | m3u-processor.js:139-144 | in `M3UProcessor` an address completes the pending entry |
| ProcessM3U.ScanAgrees | process-m3u.js:37-56 | when every `#EXTINF:` line matches the pattern, the two parsers pair the same lines with the same addresses and end with the same pending line |
| ProcessM3U.Classify | process-m3u.js:65-87 | `isHighQuality` iff the rank is at least 2; the rank is 0, 2, 3 or 4 |
| ProcessM3U.ClassifyLadder | process-m3u.js:70-87 | first match wins: 4 iff `4K` or `UHD`; 3 iff not those but `1080p` or `FHD`; 2 iff none before but `720p` or `HD`; 0 otherwise |
| ProcessM3U.BaseName | process-m3u.js:90-101 | lower-case, no whitespace at either end, no two whitespace characters side by side |
| ProcessM3U.FhdKeepsLetter | process-m3u.js:90-101 | `TV FHD` has base name `tv f` and `TV HD` has `tv`: the `F` of `FHD` stays behind |
| ProcessM3U.BaseNameIgnoresCase | process-m3u.js:90-101 | names equal up to ASCII letter case have the same base name |
| ProcessM3U.Annotate | process-m3u.js:61-107 | the classification pass gives every channel its fields, one channel per parsed channel |
| ProcessM3U.AnnotatedClassified | process-m3u.js:61-107 | every annotated channel carries the rank, text, flag and base name of its own name |
| ProcessM3U.AnnotatedKeeps | process-m3u.js:61-107 | the pass keeps each channel's name, line and address, in order |
| ProcessM3U.HighQuality | process-m3u.js:110 | the filter keeps exactly the channels flagged high quality |
| ProcessM3U.HighQualitySingle | process-m3u.js:110 | one channel passes the filter iff it is flagged high quality |
| ProcessM3U.HighQualityAppend | process-m3u.js:110 | the filter distributes over concatenation: it keeps channels in their input order, judging each on its own |
| ProcessM3U.HighQualityRanks | process-m3u.js:110 | every channel passing the filter has rank 2, 3 or 4 |
| ProcessM3U.BestWins | process-m3u.js:128-133 | `groupChannels[0]` after the stable sort is a channel of maximal rank, the earliest one in input order |
| ProcessM3U.BestOfGroup | process-m3u.js:129-133 | sorting a group in place and taking its first element gives that channel |
| ProcessM3U.BestOverPicks | process-m3u.js:128-138 | the k-th processed channel is the best of the k-th group |
| ProcessM3U.OnePerBaseName | process-m3u.js:115-138 | exactly one channel per base name, in first-appearance order, each a member of the input and the winner of its group |
| ProcessM3U.DedupWithin | process-m3u.js:115-138 | every processed channel comes from the filtered list |
| ProcessM3U.KeepBest | process-m3u.js:115-138 | grouping plus best-of-each-group gives exactly the deduplicated list |
| ProcessM3U.SortByResolution | process-m3u.js:141 | the in-place sort gives the stable descending sort by rank |
| ProcessM3U.CutoffFromFits | process-m3u.js:152-162 | from a prefix that fits, the greedy loop stops at a prefix that still fits and whose extension by the next channel does not |
| ProcessM3U.CutoffLongest | process-m3u.js:152-162 | the admitted prefix fits the budget whenever it is not empty; every longer prefix overflows |
| ProcessM3U.Admit | process-m3u.js:144-162 | `finalChannels` is the greedy prefix, and `currentSize` is 8 plus each admitted channel's `line.length + url.length + 2` |
| Playlist.RenderLength | process-m3u.js:147-171 | the length of the text is the header's 8 plus every entry's size |
| ProcessM3U.Output | process-m3u.js:166-171 | the text is `#EXTM3U\n` followed by `line\nurl\n` per admitted channel, and its length is the size the cutoff counted |
| ProcessM3U.ProcessContent | process-m3u.js:29-171 | the final channels are the pipeline's result; the text renders them; `currentSize` equals the text's length |
| ProcessM3U.FinalQuality | process-m3u.js:110-121 | every channel in the output is flagged high quality and has rank 2, 3 or 4 |
| ProcessM3U.FinalDistinct | process-m3u.js:128-141 | no two output channels share a base name |
| ProcessM3U.FinalOrdered | process-m3u.js:141 | the output is in non-increasing rank order |
| ProcessM3U.FinalBudget | process-m3u.js:144-162 | the output is a prefix of the sorted list; it fits the budget when not empty; when shorter than the list, the next channel would overflow the budget |
| ProcessM3U.OutputRoundTrip | process-m3u.js:166-171 | parsing the written text gives back each admitted channel's name, line and address, in order |
| ProcessM3U.ReadBack | process-m3u.js:166-171 | any list of well-formed parsed channels, written and parsed again, comes back unchanged |

## Left out

- File and console I/O is not modelled:
  - `fs.existsSync`, `readFileSync`, `writeFileSync` and `readdirSync`;
  - the directory listing on a missing file;
  - `console.log` reporting, `displayStats` and the histogram of final resolutions;
  - the `toFixed` percentages.

  Content comes in as a string split at `\n`, and the output text is returned.
- `generateOutputPath` and the `inputFile.replace('.m3u', …)` output name: path handling only.
- The `try`/`catch` blocks and the error messages they log. The one throw the modelled logic can reach is the prototype-key case described below.
- The async wrapper `processFile` is modelled as `ProcessContent`, without its statistics record.
- TopThree.ResolutionLadder: a `<n>p` name's pixels are `16*n*n`, not the float `n*16/9*n`. The two order names identically, and pixels are compared only between names of equal priority.
- JavaScript object-key order is not modelled. Integer-like base names (for example `"123"`) enumerate first in `Object.entries`. The model keeps first-appearance order.
- Base names that name a property of `Object.prototype`, such as `constructor` or `__proto__`, are treated by the model as ordinary groups. In both scripts such a key makes the group lookup (`channelGroups[baseName]`, `groups[baseName]`) truthy, so `.push` throws a `TypeError`: at m3u-processor.js:189-193, rethrown by `processFile`; at process-m3u.js:117-120, caught and logged, with no output file written.
- `toLowerCase` is modelled for ASCII and the Latin-1 capitals U+00C0–U+00DE (except U+00D7). Other scripts' case mappings are not.
- Characters outside the Basic Multilingual Plane are treated as single code units. No surrogate pairs are modelled.
- `maxSizeMB` is an integer. Fractional budgets are not modelled.
- The classification pass of `process-m3u.js` and the `url` assignment of both parsers mutate channel objects in place. The model builds new records instead. No other reference to those objects is observable.
- The other scripts of the repository are not part of this model: the downloader, the tester and `download.js` (HTTP, retries, file renames).
