# Voice-script tag synchronisation, modelled in Dafny

The repository is a set of batch scripts that keep the vocal tags of a multilingual
voice-script corpus in step. The corpus holds English scripts and their translations,
with one numbered dialogue line per entry (`12. [sighs] text [laughs]`). Each script
is a pass over the lines of text files:

- remove_blank_lines.py merges continuation lines into numbered records.
- find_start.py and check_tags.py report start tags and unlisted end tags.
- remove_unlisted.py and remove_start_tags.py remove tags from the English files and
  write removal logs.
- remove_end_tags.py, remove_translated.py and remove_lang_start_tags.py read those
  logs and remove the same tags from the translated `tag_match` files, keyed on the
  dialogue number.
- header.py rebuilds the category index at the top of an annotated file.

The model follows that structure, one module per script:

- `Text` holds the string helpers, modelled on Python's `str` methods.
- `Tags` holds the shared tag patterns, written as explicit character matchers.
- `Lines` holds the 1-based "number the lines that have a hit" scan every per-file
  pass uses.
- The remaining modules are the scripts: `Merger`, `FindStart`, `CheckTags`,
  `RemoveUnlisted`, `RemoveStartTags`, `RemoveEndTags`, `RemoveTranslated`,
  `StartRemovalLog`, `RemoveLangStartTags`, and `HeaderRanges`, `HeaderParse`,
  `HeaderBlock` and `HeaderIndex` for header.py.

How files are modelled:

- A file is the sequence of its lines, as `readlines` returns them (newline included),
  or the text that `split('\n')` cuts.
- The directory listing and the files the propagation reads are maps passed in as
  parameters.
- Every per-file loop is a method proved against a function of its input. The
  properties the scripts promise are lemmas about those functions: exactly which
  lines change, which entries are logged, log round trips, idempotence and range
  compression.

Dialogue numbers stay digit strings, as in the source, so `012` and `12` differ.

A removal applied twice does not always change a file only the first time:

- `remove_start_tags.py` tries the silent tags in list order.
- The propagation scripts remove one bracket group per run.

So stacked tags lose one group per run. The following lemmas show exactly when a
second run still changes a line: `RemoveEndTags.ReapplyChangesOnlyStacked`,
`RemoveEndTags.StackedTags`, `RemoveLangStartTags.ReapplyChangesOnlyStacked`,
`RemoveLangStartTags.StackedStartTags` and `RemoveStartTags.OutOfOrderSurvives`.

## Model

| member | source | states |
|---|---|---|
| Merger.NumberedExample | remove_blank_lines.py:13-15 | `12. x` is a numbered line: digits, '.', then whitespace |
| Merger.BareNumberExample | remove_blank_lines.py:13-15 | `12.` alone is not a numbered line, because no whitespace follows the '.' |
| Merger.GluedNumberExample | remove_blank_lines.py:13-15 | `12.x` is not a numbered line |
| Merger.NonBlankLines | remove_blank_lines.py:28 | the first pass keeps at most as many lines, each right-trimmed and non-empty |
| Merger.CleanAndMergeLines | remove_blank_lines.py:28-52 | the loop returns the merge of the lines: every record is trimmed and non-empty, every record after the first is numbered, the records joined by spaces are the non-blank lines joined by spaces (nothing lost, one space per glue), and there are no more records than lines |
| Merger.MergeShape | remove_blank_lines.py:34-52 | every record is trimmed, and every record but the first starts with a number |
| Merger.MergeKeepsText | remove_blank_lines.py:43-48 | continuation lines are glued to their record with exactly one space, in order, and no text is lost |
| Merger.MergeCount | remove_blank_lines.py:34-52 | the record count is the number of numbered non-blank lines, plus one when the first non-blank line is unnumbered, so it never exceeds the line count |
| Merger.MergeIdempotent | remove_blank_lines.py:28-57 | merging the records again, or the file written from them, gives the same records |
| Tags.LeadingNumber | remove_lang_start_tags.py:143 | `^(\d+)\.`: a non-empty digit string that the line starts with, followed by '.' |
| Tags.LeadingNumberExact | remove_lang_start_tags.py:143 | a line starting with digits and '.' has exactly those digits as its leading number |
| Tags.DialogueNumberIff | find_start.py:44-49 | `extract_dialogue_number` gives `d` exactly when the line starts with the digits `d`, a '.' and a whitespace character; both directions |
| Tags.DialogueNumberExtend | find_start.py:46 | text appended after the number does not change the dialogue number |
| Tags.DialogueOfMatch | find_start.py:38-46 | on a line that opens with a start-tag match, the dialogue number is the match's number when whitespace follows its '.', and there is none when the '[' follows it directly |
| Tags.StartTagMatch | find_start.py:38 | a found match is well formed (digits, '.', a whitespace run, '[', non-empty contents without ']', ']') and opens the line |
| Tags.StartTagMatchExact | find_start.py:38 | any well-formed match that opens the line is the one found, so the match is unique |
| Tags.StartTagMatchExtend | find_start.py:38 | only the first bracket group after the number counts; text after it is ignored |
| Tags.StartTagIff | find_start.py:32-41 | `extract_start_tag` gives `t` exactly when the line opens with a well-formed `N.`, whitespace, `[c]` match and `t` is `[c]`; both directions |
| Tags.EndTagFrom | check_tags.py:68 | `re.search` from a position: the leftmost bracket group followed only by whitespace to the end |
| Tags.EndTagSpan | check_tags.py:68 | the end-tag match of a line is the leftmost valid one, and one is found whenever any exists |
| Tags.EndTag | check_tags.py:65-71 | the end tag is `[c]` with non-empty contents and no ']' inside, present exactly when the span is |
| Tags.EndTagAtLastBracket | check_tags.py:68 | the end tag closes at the line's last ']' and only whitespace follows it |
| Tags.EndTagInLine | check_tags.py:70 | the reported tag is the line's own text, in its original case |
| Tags.RemoveEndTag | remove_unlisted.py:76-80 | the result is a prefix of the line: a line without an end tag is unchanged, otherwise only the tag, the whitespace before it and the whitespace after it are cut |
| Tags.CutGroup | remove_unlisted.py:79 | `p [y]`, where every '[' of `p` is closed, has end tag `[y]`, and removing it leaves `p` |
| Tags.RemoveEndTagShrinks | remove_end_tags.py:94-97 | removing an end tag deletes at least three characters, so a cleaned line always differs |
| Tags.UnlistedIff | check_tags.py:46-85 | with `ALLOWED_TAGS_LOWER` built by lower-casing the allowed tags, a tag is unlisted exactly when no allowed tag equals it up to letter case |
| Tags.SighsAllowedInAnyCase | check_tags.py:85 | with `[sighs]` allowed, both `[Sighs]` and `[sighs]` count as allowed |
| Lines.NumberedSound | find_start.py:58-63 | every entry of a per-line scan carries its own line's 1-based number and that line's hit |
| Lines.NumberedAscending | find_start.py:58-63 | the entries of a scan come in strictly ascending line order |
| Lines.NumberedComplete | find_start.py:58-63 | every line with a hit has an entry |
| FindStart.HitOfIff | find_start.py:59-63 | a line is recorded as an entry exactly when its text opens with a well-formed start-tag match; the entry holds the match's bracket group, and the match's number as dialogue number when whitespace separates the '.' from the '[' (`7. [x]`), none when it does not (`7.[x]`) |
| FindStart.StartHitsExact | find_start.py:58-63 | `process_file` records exactly one entry per line with a start tag: each is that line's entry, and they come in ascending 1-based order |
| FindStart.ScanStartTags | find_start.py:52-67 | the scan loop returns exactly those entries |
| FindStart.TagWithoutDialogueNumber | find_start.py:38 | `7.[sighs]` has the start tag `[sighs]` but no dialogue number |
| FindStart.ReportLineDialogue | find_start.py:151-152 | an entry without a dialogue number is reported as `N/A`, one with a number names it |
| FindStart.TagWithDialogueNumber | find_start.py:46 | `7. [sighs] x` is recorded with dialogue number `7` and tag `[sighs]` |
| FindStart.UnnumberedLineNotReported | find_start.py:38 | a line that does not start with a digit (such as `[pause] ...`) is not recorded |
| CheckTags.UnlistedTagIff | check_tags.py:82-86 | a line is reported exactly when it has an end tag that no allowed tag matches up to case, and the tag is reported as written in the line |
| CheckTags.UnlistedEntriesExact | check_tags.py:80-86 | `process_file` returns exactly the (line number, tag) pairs of the lines with an unlisted end tag, in ascending line order |
| CheckTags.ScanUnlisted | check_tags.py:74-90 | the scan loop returns exactly those pairs |
| RemoveUnlisted.CleanedLine | remove_unlisted.py:97-108 | a line changes exactly when it has an unlisted end tag; it is then cut before the tag and ends in '\n' |
| RemoveUnlisted.CleanedCut | remove_unlisted.py:103-104 | a changed line is `remove_end_tag` of the line without its newline, plus '\n' |
| RemoveUnlisted.ProcessFile | remove_unlisted.py:83-118 | the loop returns the rewritten lines and the removals; the removals are exactly what check_tags.py reports; the file is written back only when something was removed |
| RemoveUnlisted.CleanedExact | remove_unlisted.py:97-113 | line `i` changes exactly when it has an unlisted end tag, and the file changes exactly when the removal list is non-empty |
| RemoveUnlisted.ShortEntryNoMatch | remove_unlisted.py:195 | an entry line `Line n: [tag]` never matches remove_end_tags.py's entry pattern |
| RemoveUnlisted.AsWrittenLogPoolsNothing | remove_unlisted.py:185-196 | reading the log as written adds no dialogue number, whatever the sections |
| RemoveUnlisted.AsWrittenLogUnreadable | remove_unlisted.py:185-196 | remove_end_tags.py reads the log as written as the empty pool, even when it lists removals from English files |
| RemoveUnlisted.DialogueLogPool | remove_unlisted.py:185-196 | the corrected log adds exactly the known dialogue numbers of its English sections |
| RemoveUnlisted.DialogueLogRoundTrip | remove_unlisted.py:185-196 | the corrected log, with entries that carry the dialogue number as remove_end_tags.py:290 writes them, reads back through remove_end_tags.py's parser as exactly the dialogue numbers of the English files' removed lines |
| RemoveStartTags.SilentTagsPlain | remove_start_tags.py:5-27 | `SILENT_TAGS` has 19 entries, each lower-case text without ']', ':', '[' or newline |
| RemoveStartTags.SilentTagsDistinct | remove_start_tags.py:5-27 | no entry of `SILENT_TAGS` is listed twice |
| RemoveStartTags.NumberedHit | remove_start_tags.py:41-45 | pattern 1 keeps the line's leading number followed by `. `, and the line gets shorter |
| RemoveStartTags.LeadingHit | remove_start_tags.py:56-59 | pattern 2 matches exactly when the line starts with `[tag]`; the result is a suffix of the line that does not start with whitespace |
| RemoveStartTags.LabelHit | remove_start_tags.py:70-73 | pattern 3 keeps the label up to and including the first ':' |
| RemoveStartTags.TagHitOrder | remove_start_tags.py:39-81 | for one tag the patterns are tried in the order 1, 2, 3, and the first that matches wins |
| RemoveStartTags.NumberedRemoval | remove_start_tags.py:41-52 | `240. [pause] Hello` becomes `240. Hello` and records dialogue number `240` |
| RemoveStartTags.LeadingRemoval | remove_start_tags.py:56-66 | `[pause] Hello` becomes `Hello` and records no dialogue number |
| RemoveStartTags.LabelRemoval | remove_start_tags.py:70-80 | `Character 1: [pause] Hello` becomes `Character 1: Hello` |
| RemoveStartTags.OtherBracketNoHit | remove_start_tags.py:41 | matching is exact and case-sensitive: entry `pause` removes neither `[long pause]` nor `[Pause]` |
| RemoveStartTags.CapitalisedTagKept | remove_start_tags.py:39-81 | `[Pause] ...` survives the whole tag list and logs nothing |
| RemoveStartTags.UnlistedBracketKept | remove_start_tags.py:39-81 | a line opening with a bracket group that is not listed is kept and logs nothing |
| RemoveStartTags.NoBracketKept | remove_start_tags.py:39-81 | a line without '[' is kept and logs nothing |
| RemoveStartTags.PlainLineKept | remove_start_tags.py:39-81 | a line that starts with neither '[' nor a digit and has no ':' is kept |
| RemoveStartTags.OutOfOrderSurvives | remove_start_tags.py:39-81 | in `[a] [b]rest` with `b` listed before `a`, only `[a]` goes and `[b]` survives the pass |
| RemoveStartTags.InOrderRemoved | remove_start_tags.py:39-81 | in `[a] [b]rest` with `a` listed before `b`, both go and both are logged, in that order |
| RemoveStartTags.CleanLineShrinks | remove_start_tags.py:39-83 | every removal shortens the line: a line is unchanged exactly when nothing was logged for it, and it never gains a newline |
| RemoveStartTags.CleanLineDialogues | remove_start_tags.py:44 | every logged dialogue number is absent or a non-empty digit string |
| RemoveStartTags.CleanTextLines | remove_start_tags.py:33-85 | the cleaned text splits into as many lines as the original, each the original line cleaned |
| RemoveStartTags.UnchangedIffNothingLogged | remove_start_tags.py:36-83 | the lines are unchanged exactly when no entry was logged for them |
| RemoveStartTags.WrittenIffLogged | remove_start_tags.py:95-98 | `process_file` writes the file back exactly when some tag was removed from it and logged |
| RemoveStartTags.MatchTag | remove_start_tags.py:39-81 | the three patterns for one tag, tried in order, give the hit of the specification |
| RemoveStartTags.CleanLogged | remove_start_tags.py:36-82 | the inner loop over the tags gives the cleaned line and one entry per removal, each with the line number, the path and the stripped original line |
| RemoveStartTags.CleanLines | remove_start_tags.py:36-84 | the outer loop gives every line cleaned, plus the entries of all lines in order |
| RemoveStartTags.EntryHeading | remove_start_tags.py:122-125 | an entry's first log line starts with `Dialogue ` exactly when it has a dialogue number, and with `File line ` otherwise |
| RemoveStartTags.HeaderText | remove_start_tags.py:118-119 | the log opens with the count line, the `repr` of the tag list, and a blank line |
| RemoveStartTags.EntryText | remove_start_tags.py:121-127 | each entry is written as its heading, `  Tag: [t]`, `  Original: ...`, then a blank line |
| RemoveStartTags.BodyLinesEntry | remove_start_tags.py:121-127 | entry `k` occupies log lines `4k` to `4k+3`, in order |
| RemoveStartTags.StartTagRemover.constructor | remove_start_tags.py:5-29 | the script starts with `SILENT_TAGS` and an empty `removed_log` |
| RemoveStartTags.StartTagRemover.RemoveSilentTagsAtStart | remove_start_tags.py:31-85 | the text is cleaned line by line, and exactly the text's entries are appended to `removed_log` |
| RemoveStartTags.StartTagRemover.ProcessFile | remove_start_tags.py:87-99 | the cleaned text is written back exactly when it differs from the content, and the entries are appended |
| RemoveStartTags.StartTagRemover.WriteLog | remove_start_tags.py:115-127 | the loop writes the log text of `removed_log`: a `Dialogue d (file line n) in path` or `File line n in path` heading per entry |
| RemoveEndTags.RemovalIff | remove_end_tags.py:129-138 | a line loses end tag `t` under dialogue number `d` exactly when its text starts with the digits `d`, '.' and whitespace, `d` is in the pool, and `t` is its end tag |
| RemoveEndTags.PropagatedLine | remove_end_tags.py:127-140 | a line changes exactly when it has a removal; it is then a prefix of the line followed by '\n' |
| RemoveEndTags.PropagatedCut | remove_end_tags.py:134-135 | a changed line is `remove_end_tag` of the line without its newline, plus '\n' |
| RemoveEndTags.ProcessTargetFile | remove_end_tags.py:113-150 | the loop returns the rewritten lines and the removals, and the file is written only when something was removed |
| RemoveEndTags.PropagatedChanges | remove_end_tags.py:127-140 | line `i` changes exactly when it has a removal |
| RemoveEndTags.RemovedExact | remove_end_tags.py:127-138 | the removals name exactly the changed lines, with their dialogue numbers and tags, in ascending file-line order |
| RemoveEndTags.WrittenIffChanged | remove_end_tags.py:143-145 | the removal list is empty exactly when no line changed |
| RemoveEndTags.EmptyPoolChangesNothing | remove_end_tags.py:132 | with an empty pool (such as a log the parser cannot read) no line changes and nothing is removed |
| RemoveEndTags.PassCutsLastGroup | remove_end_tags.py:132-135 | one pass removes the last bracket group of a targeted line whose earlier brackets are all closed |
| RemoveEndTags.PassKeepsUnbracketed | remove_end_tags.py:100-102 | a line without '[' is kept by a pass |
| RemoveEndTags.ReapplyChangesOnlyStacked | remove_end_tags.py:100-132 | re-applying the same pool changes a line only when the first pass cut a tag from it and left another end tag at its end |
| RemoveEndTags.StackedTags | remove_end_tags.py:94-140 | `d. text [x] [y]` becomes `d. text [x]`, then `d. text`, and only then stays unchanged |
| RemoveEndTags.EntryDialogue | remove_end_tags.py:44 | a match of the entry pattern captures a non-empty digit string from a line starting `Line ` |
| RemoveEndTags.EntryLineParses | remove_end_tags.py:290 | a written entry line, once stripped, parses back to the dialogue number it was written with |
| RemoveEndTags.HeaderLineParses | remove_end_tags.py:288 | a written `### path` header, once stripped, gives the path back when the path does not end in whitespace |
| RemoveEndTags.ParseRemovalLog | remove_end_tags.py:18-49 | the loop returns the pool: digit dialogue numbers from entry lines under `/english_` headers only; other lines are ignored |
| RemoveEndTags.LogPool | remove_end_tags.py:25-47 | reading written sections adds exactly the dialogue numbers of the English sections |
| RemoveEndTags.LogRoundTrip | remove_end_tags.py:283-291 | the log written in this layout reads back as exactly the dialogue numbers of the English files' removals |
| RemoveTranslated.ParseRemovalLog | remove_translated.py:14-43 | the loop returns the per-path sets and the flat set that the parse specification gives |
| RemoveTranslated.AddNumberUnion | remove_translated.py:40-41 | adding `d` under a path adds exactly `d` to the union of the sets |
| RemoveTranslated.AllIsUnion | remove_translated.py:20-43 | for any log, the flat set is exactly the union of the per-path sets |
| RemoveTranslated.LogByFile | remove_translated.py:30-41 | reading written sections adds their numbers under their paths, and all their numbers to the flat set |
| RemoveTranslated.LogRoundTripByFile | remove_translated.py:194-202 | the written log reads back as the same path-to-numbers sets, with the flat set holding all the numbers, for paths that do not end in whitespace |
| RemoveTranslated.ProcessTargets | remove_translated.py:148-160 | every target file is rewritten against the union of all sections' numbers, whichever file contributed each number |
| StartRemovalLog.MatchAt | remove_lang_start_tags.py:25 | a match at a position starts with `Dialogue ` and captures a non-empty digit string and a non-empty path |
| StartRemovalLog.MatchFromShape | remove_lang_start_tags.py:26 | a line has a match only where `Dialogue ` occurs |
| StartRemovalLog.DialogueHeadingMatch | remove_lang_start_tags.py:25 | `Dialogue d (file line n) in path` gives back `d` and `path` |
| StartRemovalLog.AddRemoval | remove_lang_start_tags.py:30-32 | a new path gets the list `[d]`, a known path gets `d` appended, other paths are untouched, and each path stays listed once |
| StartRemovalLog.FindMatch | remove_lang_start_tags.py:26 | the scan returns the leftmost match on the line |
| StartRemovalLog.ParseStartRemovalLog | remove_lang_start_tags.py:21-32 | the loop returns the `removals` map the parse specification gives |
| StartRemovalLog.CollectMeaning | remove_lang_start_tags.py:26-32 | each matched (stripped) path is listed once, and its list holds all of its numbers in log order |
| StartRemovalLog.HeadingMatch | remove_start_tags.py:122-125 | a `Dialogue` heading gives back the entry's number and path; a `File line` heading gives nothing |
| StartRemovalLog.LogParsesBack | remove_start_tags.py:115-127 | reading back the log remove_start_tags.py writes gives the entries' own matches, in log order |
| StartRemovalLog.StartLogRoundTrip | remove_start_tags.py:115-127 | a path is a key of the parsed map exactly when some `Dialogue` entry names it, and its list is those entries' numbers in log order; `File line` entries contribute nothing |
| RemoveLangStartTags.DirName | remove_lang_start_tags.py:38 | `os.path.dirname` has no trailing '/' unless it is all slashes |
| RemoveLangStartTags.BaseName | remove_lang_start_tags.py:39 | `os.path.basename` is a '/'-free suffix of the path |
| RemoveLangStartTags.DropLast | remove_lang_start_tags.py:59 | Python's `s[:-k]` for the positive suffix lengths the script uses: `s` without its last `k` characters, or empty when `s` is shorter |
| RemoveLangStartTags.JoinPathSplits | remove_lang_start_tags.py:92 | splitting `os.path.join(dir, f)` gives back `dir` and `f` |
| RemoveLangStartTags.TagMatchPath | remove_lang_start_tags.py:36-94 | None for a tag_match or English source or a missing folder; otherwise the first listing entry that passes every `continue` and has the source's base once `_tag_match` is removed, and None only when no entry does |
| RemoveLangStartTags.GetTagMatchPath | remove_lang_start_tags.py:36-94 | the listing loop with its `continue`s returns that path |
| RemoveLangStartTags.SuffixesExclusive | remove_lang_start_tags.py:76-79 | a name ending in `_lines.txt` never ends in `_lines_numbered.txt`, so the third suffix check never skips an entry |
| RemoveLangStartTags.TagMatchPathInFolder | remove_lang_start_tags.py:65-92 | the file found is in the source's folder, contains `_tag_match_`, is not `_annotated.txt`, has the source's suffix, and reduces to the source's base |
| RemoveLangStartTags.StripStartTagAsWritten | remove_lang_start_tags.py:96-99 | as written, a line without a start tag is unchanged and a tagged line gets shorter |
| RemoveLangStartTags.AsWrittenOnlyTag | remove_lang_start_tags.py:98 | as written, `N. [x]\n` becomes `N. ` with no newline |
| RemoveLangStartTags.AsWrittenJoinsNextLine | remove_lang_start_tags.py:98 | as written, a line holding only its tag merges with the next line when the file is written and read back |
| RemoveLangStartTags.StripStartTag | remove_lang_start_tags.py:96-99 | corrected: a line without a start tag is unchanged, and a tagged line gets shorter |
| RemoveLangStartTags.StripStartTagKeepsLine | remove_lang_start_tags.py:98 | corrected: the result is still one line and ends in '\n' exactly when the line did |
| RemoveLangStartTags.StripStartTagKeepsNumber | remove_lang_start_tags.py:98-99 | corrected: the result starts with the tag's number and `. `, so the leading number is kept |
| RemoveLangStartTags.RemovalAt | remove_lang_start_tags.py:143-156 | a line is logged exactly when its leading number is targeted and it has a start tag (so the tag is never "unknown"); the entry holds the number, the file, the tag and both stripped lines |
| RemoveLangStartTags.RewriteLine | remove_lang_start_tags.py:140-160 | a line changes exactly when its leading number is targeted and it has a start tag; the change uses the corrected `StripStartTag` |
| RemoveLangStartTags.RewrittenLineAt | remove_lang_start_tags.py:140-160 | line `i` after the loop is line `i`, or `StripStartTag` of it when it is targeted and tagged |
| RemoveLangStartTags.ReapplyChangesOnlyStacked | remove_lang_start_tags.py:98-145 | a second run changes a line only when the first run stripped a tag from it and left another start tag after the same number |
| RemoveLangStartTags.StackedStartTags | remove_lang_start_tags.py:98-145 | `N. [a] [b] text` becomes `N. [b] text`, then `N. text`, and only a third run leaves it unchanged |
| RemoveLangStartTags.RemovedEntries | remove_lang_start_tags.py:143-156 | every entry logged for a file names that file and a targeted number, and comes from one of its lines |
| RemoveLangStartTags.RemovedCountsChanges | remove_lang_start_tags.py:146-158 | one log entry per changed line |
| RemoveLangStartTags.ModifiedIffLogged | remove_lang_start_tags.py:137-162 | a file is modified exactly when something was logged for it |
| RemoveLangStartTags.RewrittenFileReadsBack | remove_lang_start_tags.py:131-165 | with the corrected removal, the rewritten lines are still lines, and `readlines` gives them back after `writelines` |
| RemoveLangStartTags.RewriteOneLine | remove_lang_start_tags.py:140-160 | the loop body gives the line to write back and the log entry |
| RemoveLangStartTags.RewriteTagMatchFile | remove_lang_start_tags.py:130-160 | the loop over one file's lines gives the rewritten lines and the file's log entries in line order |
| RemoveLangStartTags.PropagateRemovals | remove_lang_start_tags.py:109-168 | the loop over the sources in log order: English, tag_match and unresolved sources are counted or listed, and the others have their tag_match files rewritten with the corrected `StripStartTag` rather than the substitution as written |
| RemoveLangStartTags.PropagateCounts | remove_lang_start_tags.py:109-168 | one removed tag per log entry; each source is counted or listed at most once; the set of files never changes |
| RemoveLangStartTags.DryRunWritesNothing | remove_lang_start_tags.py:162-166 | a dry run writes no file |
| RemoveLangStartTags.LogEntriesFromSources | remove_lang_start_tags.py:109-158 | every log entry names the tag_match file of some source, and one of the numbers logged for that source |
| RemoveLangStartTags.DryRunReportsRealRun | remove_lang_start_tags.py:162-168 | when no two sources reach the same tag_match file, a dry run reports the same counts and lists as a real run, and the real run leaves unreached files as they were |
| RemoveLangStartTags.FilesStayLines | remove_lang_start_tags.py:131-165 | with the corrected removal, every file stays a list of lines |
| RemoveLangStartTags.RemoveLangStartTagsScript | remove_lang_start_tags.py:21-168 | the script parses the log, then runs the source loop over the parsed sources in log order; the loop uses the corrected `StripStartTag` |
| HeaderParse.BaseTag | header.py:26 | the base of a tag is the prefix up to its first pipe character, or the whole tag when it has none |
| HeaderParse.ParseLineWithInlineTag | header.py:19-29 | a result is the number and bracket text of a start-tag match on the stripped line, whose base is not `pure`, `mix` or `en` |
| HeaderParse.InlineTagExact | header.py:21-29 | a line opening with a start tag gives that number and tag, or nothing when the base is a mode tag |
| HeaderParse.ModeTagIgnored | header.py:26-28 | a line tagged with the mode `mix` and the level `casual` gives no inline tag |
| HeaderParse.ParseLineNumber | header.py:31-36 | a result is the value of the digits in front of the first '.' of the stripped line |
| HeaderParse.ParseLineNumberExact | header.py:33-35 | a stripped line starting with digits and '.' gives exactly their value |
| HeaderParse.InlineNumberIsLineNumber | header.py:21-35 | a line with an inline tag has that tag's number as its line number |
| HeaderParse.SectionMatchSound | header.py:40 | a found header match is well formed and opens the line |
| HeaderParse.SectionMatchExact | header.py:40 | any well-formed header match that opens the line is the one found |
| HeaderParse.SectionTag | header.py:42-43 | a name maps to one of the five content types exactly when its upper-case form is a known section |
| HeaderParse.ParseSectionHeader | header.py:38-44 | a recognised header gives one of the five content types, from a stripped line starting with '#' |
| HeaderParse.SectionHeaderExact | header.py:40-43 | a line opening with a header match gives the content type of the match's name |
| HeaderParse.NumberedNotHeader | header.py:40 | a line whose stripped text starts with a digit is never a section header |
| HeaderParse.ContinuedDialogue | header.py:40-43 | `# --- Dialogue (continued) ---` is a `dialogue` header |
| HeaderParse.UnknownSection | header.py:43 | `# --- NOTES ---` matches the pattern but names no content type |
| HeaderRanges.SortedDistinct | header.py:50 | `sorted(set(numbers))` is increasing and holds exactly the input's numbers |
| HeaderRanges.SortedDistinctSetOnly | header.py:50 | only the set of numbers matters, not their order or repetitions |
| HeaderRanges.RunsGapped | header.py:52-67 | each run is ascending, and at least one number is missing between neighbouring runs |
| HeaderRanges.RunsCover | header.py:52-67 | a number is in the input exactly when it lies in one of the runs |
| HeaderRanges.RangeText | header.py:46-49 | the range text is empty exactly when there are no numbers |
| HeaderRanges.RangeTextRuns | header.py:46-69 | the range text is the maximal runs of the distinct sorted numbers, joined by `, `, and it covers exactly the input's numbers |
| HeaderRanges.RangeTextSetOnly | header.py:46-69 | two inputs with the same numbers give the same range text |
| HeaderRanges.RangeTextChars | header.py:46-69 | the range text holds only digits, '-', ',' and ' ', and no newline |
| HeaderRanges.ExampleRanges | header.py:47 | `[1, 2, 3, 5, 7, 8, 9]` gives `1-3, 5, 7-9` |
| HeaderRanges.RangesToString | header.py:46-69 | the loop returns that range text |
| HeaderBlock.GenerateHeader | header.py:71-93 | the method builds the header text: fixed lines, one entry per category present in the fixed order, and the total |
| HeaderBlock.HeaderLines | header.py:71-93 | split at its line breaks, the header is the fixed lines, then one `# name: ranges  # k lines` entry per content type present in fixed order, then the same for professionalism levels, then the total |
| HeaderBlock.HeaderContentTypes | header.py:77-80 | the content-type entries name exactly the present content types, in the fixed order |
| HeaderBlock.HeaderProfessionalism | header.py:85-88 | the professionalism entries name exactly the present levels, `casual` before `professional` |
| HeaderIndex.SubTag | header.py:132 | splitting at the first pipe: the tag is its base, the pipe, then the sub-tag |
| HeaderIndex.DetectStyle | header.py:109-118 | the first loop finds whether any line is a section header and whether any line has an inline tag with a non-zero number |
| HeaderIndex.IndexInline | header.py:124-136 | the inline loop returns the inline index |
| HeaderIndex.IndexSections | header.py:137-149 | the section loop returns the section index |
| HeaderIndex.ClassifyLines | header.py:109-149 | the inline pass runs exactly when there are inline tags and no section header; otherwise the section pass runs |
| HeaderIndex.InlineLists | header.py:126-136 | inline mode: content type `k` lists exactly the numbers of the lines whose tag has base `k`, and level `k` those whose sub-tag is `k`, in file order |
| HeaderIndex.SectionLists | header.py:139-149 | section mode: each numbered line is filed under the most recent known section header, in file order |
| HeaderIndex.NoHeaderNoIndex | header.py:137-149 | in section mode, a file without a section header yields an empty index (total 0) |
| HeaderIndex.BuildIndexConsistent | header.py:109-149 | no empty list; the total is the largest number filed (0 when none); each mapped number is filed under its known content type |
| HeaderIndex.InsertTag | header.py:176-180 | the back-fill substitution leaves a line without a leading number unchanged, and makes a numbered line start with `N. [tag] ` |
| HeaderIndex.InsertTagOf | header.py:176-180 | on a line written as number, '.', blanks and a rest that does not start with a blank, the substitution gives exactly `N. [tag] ` followed by that rest |
| HeaderIndex.BackfillInserts | header.py:169-181 | a mapped numbered line without its content tag gets the tag inserted after its number |
| HeaderIndex.BackfillTags | header.py:169-183 | after back-fill, a mapped numbered line carries its content tag, alone or followed by a sub-tag |
| HeaderIndex.BackfillKeepsShape | header.py:162-185 | back-fill keeps every line's number and header status |
| HeaderIndex.BackfillIdempotent | header.py:172-185 | back-filling a line twice gives the same line as back-filling it once |
| HeaderIndex.Backfill | header.py:159-186 | the back-fill loop maps every line through the line rewrite |
| HeaderIndex.BackfillKeepsIndex | header.py:159-186 | back-filled lines give the same index as the original lines |
| HeaderIndex.BackfilledTwice | header.py:159-186 | back-filling the lines twice is the same as back-filling them once |
| HeaderIndex.ProcessFile | header.py:100-186 | `process_file` up to the splice: no output when no numbered line was found, otherwise the generated header and the text, back-filled when requested |
| HeaderIndex.SecondRunAddsNothing | header.py:100-186 | running again on the back-filled text (before the header is spliced in) gives the same header and the same text |

## Left out

- Text.IsSpace: only the ASCII whitespace characters (space, tab, '\n', '\r', vertical tab, form feed). Python's `\s` and `str.strip` also accept `\x1c`-`\x1f`, `\x85`, `\xa0` and the other Unicode spaces. The scripts work on Unicode text, and modelling the full class would add nothing to the properties.
- Text.IsDigit: ASCII digits only; Python's `\d` also accepts other Unicode decimal digits.
- Text.IsWordChar: ASCII letters, digits and '_' only; Python's `\w` is Unicode-aware.
- Text.Lower: ASCII case mapping only; Python's `str.lower` also maps non-ASCII letters.
- Text.Upper: ASCII case mapping only; Python's `str.upper` also maps non-ASCII letters.
- HeaderIndex.ProcessFile: the header splice at header.py:188-205 is not modelled. It covers the `# Use these ...` / `# LINE INDEX` regex replacement and the file write. The model returns the new header and the text it would be spliced into.
- HeaderIndex.SecondRunAddsNothing: it covers the back-filled text before the splice, not the spliced file header.py:204-205 writes.
- StartRemovalLog.StartLogRoundTrip: requires every entry to be `Readable`. Paths and original lines must not contain `Dialogue `, which `re.finditer` would misread as a heading.
- RemoveLangStartTags.DryRunReportsRealRun: requires `DistinctTargets`. When two sources reach the same tag_match file, a real run shows the second source the rewritten file, and a dry run does not.
- RemoveLangStartTags.TagMatchPath: the listing holds only directories. So a dirname that exists but is not a directory gives None, where `os.listdir` would raise NotADirectoryError (remove_lang_start_tags.py:49,65).
- The `tag_match_removed.txt` writer (remove_lang_start_tags.py:194-203) and the dry-run listing (183-191) are not modelled; they are output only.
- Prints and summaries are not modelled; they are output only. This covers the console output, the tag counts and the summary sections of every log, such as remove_unlisted.py:173-182 and remove_end_tags.py:246-276. The detailed log sections, which other scripts read back, are modelled.
- The file system is not modelled: globbing, `os.walk`, `find_target_files`, `find_language_folders`, `main`, argparse and the sorted orders of files and log sections. The files and their order are parameters.
- Exception handling is not modelled. The `try/except` blocks that print and skip a file are dropped, and I/O errors cannot occur in the model.
- dropbox_link.py and end_tag.py are not part of this model.

## Findings

| source | as written | input that shows it | evidently intended | confidence | as-written member | corrected member |
|---|---|---|---|---|---|---|
| remove_unlisted.py:195 | The log entry is `  Line n: [tag]`. It has no dialogue number, so the pattern at remove_end_tags.py:44 (and remove_translated.py:37) never matches it, yet remove_end_tags.py reads that very file by default (remove_end_tags.py:8,157) | a log with section `### /x/english_1/a.txt` and entry `  Line 3: [hums]`: remove_end_tags.py pools nothing | entries carry the dialogue number in the form remove_end_tags.py:290 writes, so the English removals reach the translations | high (not executed) | RemoveUnlisted.AsWrittenLogUnreadable | RemoveUnlisted.DialogueLogRoundTrip |
| remove_lang_start_tags.py:98 | The trailing `\s*` of `^(\d+)\.\s*\[[^\]]+\]\s*` also consumes the '\n' that `readlines` keeps, when nothing but whitespace follows the tag. The rewritten line `N. ` has no newline, so `writelines` joins it to the next line | the lines `5. [sighs]\n` and `6. Hi\n` with 5 targeted are written back as `5. 6. Hi\n` | the line keeps its newline: `5. \n` | high (not executed) | RemoveLangStartTags.AsWrittenJoinsNextLine | RemoveLangStartTags.RewrittenFileReadsBack |

For the first finding, the log as written is `RemoveUnlisted.Log`. The corrected log is
`RemoveUnlisted.DialogueLog`, which writes each entry with its dialogue number, in the form of
remove_end_tags.py:290.

For the second finding, the substitution as written is
`RemoveLangStartTags.StripStartTagAsWritten`. The corrected `StripStartTag` puts the
newline back, and the propagation loop (`RewriteLine`, `PropagateRemovals`,
`RemoveLangStartTagsScript`) uses the corrected version.
