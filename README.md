# QtBinPatcher core, modelled in Dafny

QtBinPatcher moves an installed Qt tree to a new directory. It rewrites the
old installation paths that Qt stores in its text files (`.prl`, `.pc`,
`qmake.conf`, ...) and in its binaries (`qmake`, `QtCore`, ...). This project
models three parts of the tool and proves what they do. File and process
I/O is left out.

- **The patch engine of `TQtBinPatcher`** (`qt_bin_patcher.dfy`,
  `text_patch.dfy`, `bin_patch.dfy`, `bin_params.dfy`):
  - the decision whether patching is needed (`strneq`, `isPatchNeeded`);
  - the 450-character limit on the new directory;
  - the text substitution table (`addTxtPatchValues`);
  - the binary substitution table, built from the 19-row static table
    of qmake variables, tags and sub-directories (`createBinPatchValues`);
  - `createPatchValues`, which combines the two tables;
  - the Qt-version dispatch of the two file-list builders.

  The text and binary passes over a file's contents are modelled too:
  - The text pass works on a growable buffer. Matches are erased and the new
    text is spliced in, and the search resumes after the inserted text.
  - The binary pass works in place on an `array<char>` exactly as large as
    the file. It uses `strcpy`, zero fill with `memset`, and a moving cursor.
- **The option validator `TCmdLineChecker`** (`cmd_line_checker.dfy`): a
  class with the copied option map and the error string as fields. It has
  `check(option, type)` with the deliberate `otSingleValue` fallthrough,
  `checkIncompatible`, `endCheck` and the static `check(argsMap)`.
- **The qmake reader `TQMake`** (`qmake.dfy`):
  - `find`, with file existence and the working directory as parameters,
    including the "one level up" truncation;
  - `query`, with the program's output as a parameter;
  - the `strtok` loop of `parse`;
  - `value`.

Supporting modules:
- `std_map.dfy` models `std::map<string, T>` as a strictly sorted
  association list. Iterating over the list is iterating from `begin()`
  to `end()`. `Put` is `m[k] = v` and `Remove` is `erase`.
- `lex.dfy` is the key order, lexicographic by character code.
- `strings.dfy` holds the string helpers and `std::search`.
- `wrappers.dfy` holds an `Option` type.

Modelling decisions:
- Each C++ `char` is a Dafny `char`, one per byte of a file.
- The platform (`OS_WINDOWS` / `OS_LINUX`) is an `Os` value.
- The file system, directory globbing, `absolutePath`, the working
  directory and the output of `qmake -query` are parameters.
- Functions.hpp is not part of this model. Its helpers are modelled as the
  plain string functions their uses describe:
  - `toNormalSeparators` turns `\` into `/`;
  - `toNativeSeparators` turns `/` into `\` on Windows; on Linux the model
    makes it the same as `toNormalSeparators`, turning `\` into `/`, so the
    result holds only the native separator on either platform;
  - `nativeSeparator` is `\` or `/`;
  - `replace(&s, c, text)` replaces each `c` by `text`.
- QMake.hpp is not part of this model. `qtInstallPrefix()` is taken to be
  `value("QT_INSTALL_PREFIX")`.
- `tolower` is the "C" locale's: only `A`..`Z` change.

Four points of the code that shape the model:
- **No prefix-consistency check.** The code never checks that a qmake value
  starts with the install prefix.
- **The binary table comes from the static table.** It is built from the
  19-row table of QtBinPatcher.cpp:205-225. qmake's output supplies only
  each row's old value, and a row whose variable qmake did not report adds
  no entry. Every tag in the table already ends in `=`.
- **A longer binary replacement overwrites the following bytes.** The code
  has no error for it. The model reports `Overflow` only where `strcpy`
  would run past the end of the buffer, which the code does not check.
- **The two `otSingleValue` conditions exclude each other.** "Can be only
  one" needs more than one value and "must have value" needs none, so at
  most one of them is reported.

## Model

| member | source | states |
|---|---|---|
| Strings.ReplaceChar | QtBinPatcher.cpp:181-182 | `std::replace` keeps the length, turns every `from` into `to` and leaves every other character |
| Strings.ReplaceCharBy | QtBinPatcher.cpp:186-189 | `replace(&s, c, text)` removes every `c` that `text` does not hold, never shortens the string, and lengthens it when a two-character text replaces a present `c` |
| Strings.ToNormalSeparators | QtBinPatcher.cpp:149 | the normal form of a path holds no backslash |
| Strings.NormalOfNative | QtBinPatcher.cpp:167 | a path with normal separators survives the round trip through native form on either platform |
| Strings.NativeSeparator | QtBinPatcher.cpp:239 | `nativeSeparator()` is `\` on Windows and `/` on Linux |
| Strings.ToNativeSeparators | QtBinPatcher.cpp:229 | keeps the length; on Windows every `/` becomes `\`; on Linux (a modelling choice, the helper being unseen) every `\` becomes `/`, so the result holds only the native separator |
| Strings.LowerString | QtBinPatcher.cpp:76-77 | `transform(..., ::tolower)` keeps the length |
| Strings.Find | QtBinPatcher.cpp:434-438 | `std::search` returns the first match at or after the start, or the end when there is none; no earlier position matches |
| Strings.MatchShift | QtBinPatcher.cpp:434 | searching from `Buf.begin() + Delta` finds exactly the matches of the whole buffer, shifted |
| Lex.LessIrreflexive | QtBinPatcher.cpp:430 | the key order of the maps is irreflexive |
| Lex.LessAsymmetric | QtBinPatcher.cpp:430 | the key order is asymmetric |
| Lex.LessTransitive | QtBinPatcher.cpp:430 | the key order is transitive |
| Lex.LessTotal | QtBinPatcher.cpp:430 | any two different keys are ordered, so the map's iteration order is fixed |
| StdMap.Get | QMake.cpp:156-159 | `find` succeeds exactly for the keys present |
| StdMap.Put | QMake.cpp:128 | `m[k] = v` keeps the map sorted, adds `k`, makes `k` map to `v`, leaves every other key, and grows the map only for a new key |
| StdMap.Remove | CmdLineChecker.cpp:69 | `erase` keeps the map sorted, removes exactly `k`, leaves every other key, and shrinks the map only when `k` was present |
| StdMap.KeysCount | QtBinPatcher.cpp:430 | a map holds one entry per key |
| StdMap.EmptyIffNoKeys | CmdLineChecker.cpp:85 | the map is empty exactly when it has no key |
| StdMap.GetAt | QtBinPatcher.cpp:430 | the entry met at each step of the iteration is what `find` returns for its key |
| StdMap.FirstKeyLeast | QtBinPatcher.cpp:430 | iteration starts at the least key |
| StdMap.SameLookups | QtBinPatcher.cpp:175-193 | two maps that agree on every lookup are the same map, iteration order included |
| QtBinPatcher.StrNeq | QtBinPatcher.cpp:72-82 | on Linux the paths differ as strings; on Windows they differ even after lower-casing; either way a true result means the strings differ |
| QtBinPatcher.LowerEqual | QtBinPatcher.cpp:72-82 | the lower-cased strings are equal exactly when the strings agree letter by letter ignoring case |
| QtBinPatcher.IsPatchNeeded | QtBinPatcher.cpp:163-171 | false when either path is empty; otherwise true exactly when the normalised install prefix differs from the new directory, ignoring case on Windows |
| QtBinPatcher.SameDirNotNeeded | QtBinPatcher.cpp:163-171 | a Qt whose prefix is the new directory, in either separator style, needs no patch |
| QtBinPatcher.CaseOnlyNotNeeded | QtBinPatcher.cpp:72-82 | on Windows a prefix that differs only in letter case needs no patch |
| QtBinPatcher.TxtKeysNonEmpty | QtBinPatcher.cpp:179 | no key the text table gets from a path is empty |
| QtBinPatcher.ThreeWindowsKeys | QtBinPatcher.cpp:180-190 | with a `/` in the path the plain, backslashed and doubled forms are three different keys |
| QtBinPatcher.AddTxt | QtBinPatcher.cpp:175-193 | an empty path is a no-op; otherwise the path and its backslashed form map to the new directory, and on Windows the doubled form maps to the doubled directory; other keys keep their values, and a later assignment overwrites an earlier one |
| QtBinPatcher.AddTxtLookups | QtBinPatcher.cpp:180-191 | the lookups after the two or three assignments, key by key |
| QtBinPatcher.AddTxtWithSlash | QtBinPatcher.cpp:180-191 | with a `/` in the path every form maps to the value written for it |
| QtBinPatcher.AddTxtWithoutSlash | QtBinPatcher.cpp:180-191 | without a `/` the three Windows forms are one key, and the last assignment (the doubled directory) wins |
| QtBinPatcher.AddTxtAll | QtBinPatcher.cpp:260-263 | adding the old-dirs in command-line order keeps the map sorted |
| QtBinPatcher.TxtTable | QtBinPatcher.cpp:252-264 | the text table, with the install prefix first and then the old-dirs, is a sorted map |
| QtBinPatcher.TxtTableFacts | QtBinPatcher.cpp:252-264 | the text table's keys are exactly the forms of the given paths, none is empty, and each maps to the new directory (or, on Windows, to its doubled form) |
| QtBinPatcher.LinuxTxtValues | QtBinPatcher.cpp:252-264 | on Linux every key of the text table maps to the new directory itself |
| QtBinPatcher.RepeatedOldDir | QtBinPatcher.cpp:260-263 | an old-dir given twice in a row builds the same table as given once |
| QtBinPatcher.AddTxtTwice | QtBinPatcher.cpp:175-193 | `addTxtPatchValues` is idempotent |
| QtBinPatcher.BinKey | QtBinPatcher.cpp:231-234 | the old string of a row is its 12-character tag followed by the value qmake reported ("" when it reported none) |
| QtBinPatcher.BinValue | QtBinPatcher.cpp:235-241 | the new string of a row is its tag, the new directory in native form, and, when the row has one, the native separator and its sub-directory |
| QtBinPatcher.BinTable | QtBinPatcher.cpp:229-246 | the binary table after each row of the loop is a sorted map |
| QtBinPatcher.BinTableKeys | QtBinPatcher.cpp:229-246 | the loop adds exactly the keys (tag + qmake value) of the rows whose value is non-empty |
| QtBinPatcher.KeyOfOtherRow | QtBinPatcher.cpp:205-225 | different rows of a table with distinct 12-character tags have different keys |
| QtBinPatcher.ActiveKeyIndex | QtBinPatcher.cpp:232-244 | every added key belongs to a row with a value |
| QtBinPatcher.ActiveKeyMember | QtBinPatcher.cpp:232-244 | every row with a value adds its key |
| QtBinPatcher.DistinctFresh | QtBinPatcher.cpp:205-247 | with distinct tags no row overwrites the key of an earlier row |
| QtBinPatcher.FreshRow | QtBinPatcher.cpp:205-247 | with distinct tags a row's key is not among the keys of the rows before it |
| QtBinPatcher.ParamsFresh | QtBinPatcher.cpp:205-247 | no row of the static table overwrites another's entry, whatever qmake reported |
| QtBinPatcher.BinTableLookup | QtBinPatcher.cpp:229-246 | every row with a value ends up mapping tag + old value to tag + native new directory (+ separator + sub-directory) |
| QtBinPatcher.BinTableSize | QtBinPatcher.cpp:229-246 | from an empty map the table has exactly one entry per row with a value |
| QtBinPatcher.ParamsTable | QtBinPatcher.cpp:205-247 | `createBinPatchValues`' table has one entry per row of the 19 whose variable qmake reported, with that row's key and new string, and no other key |
| QtBinPatcher.ActiveKeysNonEmpty | QtBinPatcher.cpp:232-233 | every key starts with a 12-character tag, so none is empty |
| QtBinPatcher.BinTableNonEmptyKeys | QtBinPatcher.cpp:229-246 | the binary table never gets an empty key |
| QtBinPatcher.BinTableNulFree | QtBinPatcher.cpp:234-242 | the new strings hold no NUL when the new directory holds none, so `strcpy` copies them whole |
| QtBinPatcher.NulFreeNative | QtBinPatcher.cpp:229 | the native form of a NUL-free directory is NUL-free |
| QtBinPatcher.TableEntries | QtBinPatcher.cpp:430 | the key-wise facts of a map hold for every entry the iteration meets |
| QtBinPatcher.TxtElements | QtBinPatcher.cpp:317-329 | a table exists exactly for Qt 4 and Qt 5, and it is the table of that version for the platform |
| QtBinPatcher.BinElements | QtBinPatcher.cpp:388-400 | a table exists exactly for Qt 4 and Qt 5, and it is the table of that version for the platform |
| QtBinPatcher.TxtFileList | QtBinPatcher.cpp:330-335 | the text list is the results of the elements' searches spliced one after another, in table order |
| QtBinPatcher.BinFileList | QtBinPatcher.cpp:402-403 | the binary list is the `findFiles` results of the elements spliced one after another, in table order |
| QtBinPatcher.TxtFileListMembers | QtBinPatcher.cpp:330-335 | a file is in the text list exactly when a search for one of the elements returned it, recursive or not as the element says |
| QtBinPatcher.BinFileListMembers | QtBinPatcher.cpp:402-403 | a file is in the binary list exactly when `findFiles` returned it for one of the elements |
| QtBinPatcher.Patcher.GetNewQtDir | QtBinPatcher.cpp:142-159 | the new directory is the requested one made absolute, or else the Qt directory, in normal form; it is accepted exactly when it is non-empty and at most 450 characters long |
| QtBinPatcher.Patcher.AddTxtPatchValues | QtBinPatcher.cpp:175-193 | the text table becomes `AddTxt` of the old table and stays valid |
| QtBinPatcher.Patcher.CreateBinPatchValues | QtBinPatcher.cpp:197-248 | the binary table becomes the old table with the 19 rows' entries added |
| QtBinPatcher.Patcher.AddBinRows | QtBinPatcher.cpp:229-246 | the loop over the rows leaves exactly `BinTable` after the last row, with no empty key |
| QtBinPatcher.Patcher.CreatePatchValues | QtBinPatcher.cpp:252-264 | both tables are cleared, then the text table is built (install prefix first, then each old-dir in order) and the binary table from the 19 rows; with a NUL-free directory every binary value is NUL-free |
| QtBinPatcher.Patcher.AddOldDirs | QtBinPatcher.cpp:260-263 | each old-dir is added in command-line order |
| QtBinPatcher.Patcher.CreateTxtFilesForPatchList | QtBinPatcher.cpp:274-341 | succeeds exactly for Qt 4 and 5; the list is the concatenation, in table order, of what each element's search returns, and empty for other versions |
| QtBinPatcher.Patcher.CreateBinFilesForPatchList | QtBinPatcher.cpp:345-409 | succeeds exactly for Qt 4 and 5; the list is the concatenation, in table order, of what `findFiles` returns for each element |
| QtBinPatcher.Patcher.PatchTxtFile | QtBinPatcher.cpp:423-459 | an empty file is skipped (a success); otherwise the written data is the text pass with every pair in key order, case-insensitive on Windows |
| QtBinPatcher.Patcher.PatchBinFile | QtBinPatcher.cpp:482-506 | an empty file is a read error; otherwise the result is the binary pass with every pair in key order, the written data has the file's length, and an `Overflow` marks where `strcpy` would run past the buffer |
| TextPatch.ReplacedNoMatch | QtBinPatcher.cpp:434-445 | without a match the text pass changes nothing |
| TextPatch.ReplacedFirstMatch | QtBinPatcher.cpp:440-445 | the text before the first match is kept, the match becomes the new value, and the pass goes on after the old span |
| TextPatch.NoMatchShift | QtBinPatcher.cpp:434 | no match before q in the buffer means none before q - 1 in its tail |
| TextPatch.ReplacedSelf | QtBinPatcher.cpp:430-446 | replacing a path by itself, compared exactly, leaves the text as it was |
| TextPatch.ReplacedAt | QtBinPatcher.cpp:434-444 | the pass from `Delta` with its first match at `Found` |
| TextPatch.ReplaceStep | QtBinPatcher.cpp:442-444 | after one splice the text before `Found + |new|` is final, so inserted text is never searched again |
| TextPatch.Splice | QtBinPatcher.cpp:443-444 | `erase` then `insert` puts the new value where the old span was |
| TextPatch.ReplaceDone | QtBinPatcher.cpp:434-438 | when no match is left after the cursor the pass is complete |
| TextPatch.ReplaceAll | QtBinPatcher.cpp:430-446 | the inner loop terminates (for a non-empty old value, even when the new one contains it) and computes the left-to-right pass in which each match is replaced once and inserted text is never rescanned |
| TextPatch.ApplyTxt | QtBinPatcher.cpp:430 | the text pass of the first pair of the table, then of each later pair in turn on its result |
| TextPatch.PatchTxtBuffer | QtBinPatcher.cpp:430-446 | the loop over the map applies every pair's pass in key order |
| TextPatch.PatchTxtFile | QtBinPatcher.cpp:423-459 | a zero-length file is skipped as a success; otherwise the whole transformed buffer is written |
| BinPatch.Zeros | QtBinPatcher.cpp:499 | `memset(First, 0, n)` writes n NUL bytes |
| BinPatch.Overwrite | QtBinPatcher.cpp:494-501 | overwriting a match keeps the buffer length and every byte before the match |
| BinPatch.BinReplaceFrom | QtBinPatcher.cpp:488-502 | the inner loop keeps the buffer length and never changes bytes before its cursor |
| BinPatch.BinReplaceStep | QtBinPatcher.cpp:488-502 | one iteration: overwrite the first match and resume at `max(|old|, |new|)` past it |
| BinPatch.BinShorterIsPaddedReplace | QtBinPatcher.cpp:494-501 | with a shorter new value, each match becomes the new value plus `|old| - |new|` zero bytes, scanning resumes at the end of the old span, and the pass never overflows |
| BinPatch.BinLongerFirstMatch | QtBinPatcher.cpp:494-497 | with an equal or longer new value nothing is padded, the NUL of `strcpy` lands just after the new value, scanning resumes at `pos + |new|`, and the pass overflows exactly when `pos + |new| + 1` exceeds the buffer |
| BinPatch.BinApply | QtBinPatcher.cpp:487-503 | the pass over the whole table never changes the buffer length |
| BinPatch.StrCpy | QtBinPatcher.cpp:494 | `strcpy` writes the new value and a NUL and changes nothing else |
| BinPatch.MemSet | QtBinPatcher.cpp:499 | `memset` zeroes exactly its span |
| BinPatch.OverwriteAt | QtBinPatcher.cpp:494-501 | one match, overwritten in place, gives `Overwrite` and advances the cursor as the code does |
| BinPatch.CopyThenPad | QtBinPatcher.cpp:494-501 | `strcpy` then `memset` over the rest of the old span leaves the new value and zero padding |
| BinPatch.BinReplaceAll | QtBinPatcher.cpp:488-502 | the in-place loop computes `BinReplaceFrom` and reports an overflow exactly where it stops at one |
| BinPatch.PatchBinBuffer | QtBinPatcher.cpp:487-503 | the loop over the map applies every pair in key order in place and stops at an overflow |
| BinPatch.PatchBinFile | QtBinPatcher.cpp:482-506 | the buffer is exactly the file's size, an empty file is a read error, and exactly as many bytes as were read are written back |
| BinParams.ParamsLen | QtBinPatcher.cpp:205-225 | the static table has 19 rows with 12-character tags |
| BinParams.ParamsDistinct | QtBinPatcher.cpp:205-225 | no two rows share a tag |
| BinParams.ParamsNul | QtBinPatcher.cpp:205-225 | no tag or sub-directory holds a NUL |
| BinParams.TagsNul | QtBinPatcher.cpp:205-225 | no tag holds a NUL, character by character |
| BinParams.DirsNul | QtBinPatcher.cpp:205-225 | no sub-directory holds a NUL |
| CmdLineChecker.Message | CmdLineChecker.cpp:54-68 | a present option gets a message exactly when its number of values is not one its type admits |
| CmdLineChecker.MessageCases | CmdLineChecker.cpp:56-67 | `otNoValue` complains about any value; `otSingleValue` says "can be only one" for several values and, through the fallthrough, "must have value" for none, never both; `otMultyValue` says "must have value" for none |
| CmdLineChecker.StepCheck | CmdLineChecker.cpp:49-71 | `check` erases a present option whatever its message, and an absent option changes neither the map nor the errors |
| CmdLineChecker.StepCheckAppends | CmdLineChecker.cpp:49-71 | `check` only appends to the error text, and appends something exactly when the option is present with an inadmissible number of values |
| CmdLineChecker.StepCheckErrors | CmdLineChecker.cpp:56-67 | the error text after `check` is the old text plus the option's message |
| CmdLineChecker.Unknowns | CmdLineChecker.cpp:83-88 | the "Unknown option" messages are empty exactly when no option is left |
| CmdLineChecker.Apply | CmdLineChecker.cpp:97-106 | the rule calls in sequence keep the map sorted |
| CmdLineChecker.RuleMessagesFrame | CmdLineChecker.cpp:97-106 | rules give the same messages on maps that agree on their options |
| CmdLineChecker.NamesMembers | CmdLineChecker.cpp:97-106 | an option is named by the rules exactly when one rule checks it |
| CmdLineChecker.ApplyRulesErrors | CmdLineChecker.cpp:97-106 | running rules on distinct options appends their messages, in call order, as computed on the map they started from |
| CmdLineChecker.ApplyErrorsStep | CmdLineChecker.cpp:97-106 | one rule's message followed by the others' on the map it left is the sequence on the original map |
| CmdLineChecker.OtherRulesSee | CmdLineChecker.cpp:69 | erasing one option changes no later rule's message |
| CmdLineChecker.ApplyRulesArgs | CmdLineChecker.cpp:97-106 | the rules leave exactly the options none of them names |
| CmdLineChecker.CheckOrder | CmdLineChecker.cpp:92-110 | the messages come in this order: incompatibility, the rules in call order, then the unknown options |
| CmdLineChecker.CheckSpecOrder | CmdLineChecker.cpp:92-110 | the static check's result is the incompatibility message, then the ten rules' messages, then one "Unknown option" per option no rule knows |
| CmdLineChecker.RulesDistinct | CmdLineChecker.cpp:97-106 | the ten calls check ten different options |
| CmdLineChecker.RulesTyped | CmdLineChecker.cpp:97-106 | each call checks its option with the type the option has |
| CmdLineChecker.RulesNames | CmdLineChecker.cpp:97-106 | the calls check exactly the known options |
| CmdLineChecker.KnownIsRule | CmdLineChecker.cpp:97-106 | every known option is checked by some call |
| CmdLineChecker.RuleMessagesEmpty | CmdLineChecker.cpp:97-106 | the rules say nothing exactly when each rule says nothing |
| CmdLineChecker.CheckSpecParts | CmdLineChecker.cpp:92-110 | the result is empty exactly when the backup options are not both given, no rule fires and no option is unknown |
| CmdLineChecker.RulesAccept | CmdLineChecker.cpp:97-107 | no rule fires and no option is unknown exactly when every option is known and has an admissible number of values |
| CmdLineChecker.KnownNames | CmdLineChecker.cpp:97-106 | a map's options are all named by the rules exactly when they are all known |
| CmdLineChecker.QuietRuleAccepts | CmdLineChecker.cpp:56-67 | a silent rule on a present option means the option has an admissible number of values |
| CmdLineChecker.QuietKnownAccepts | CmdLineChecker.cpp:97-106 | silent rules on known options mean the command line is acceptable |
| CmdLineChecker.AcceptedRuleQuiet | CmdLineChecker.cpp:56-67 | on an acceptable command line a rule is silent |
| CmdLineChecker.AcceptsQuietKnown | CmdLineChecker.cpp:97-106 | on an acceptable command line every rule is silent and every option known |
| CmdLineChecker.CheckSpecEmpty | CmdLineChecker.cpp:92-110 | the static check returns "" exactly for an acceptable command line (no rule fired) |
| CmdLineChecker.IncompatibleFirst | CmdLineChecker.cpp:96 | with both backup options the incompatibility message comes first, before any erasure |
| CmdLineChecker.Checker.constructor | CmdLineChecker.cpp:42-45 | the checker works on its own copy of the caller's map, with an empty error string |
| CmdLineChecker.Checker.Check | CmdLineChecker.cpp:49-71 | the fields change exactly as `StepCheck` says |
| CmdLineChecker.StepIncompatible | CmdLineChecker.cpp:75-79 | the map is untouched; the error text only grows, and grows exactly when both options are present |
| CmdLineChecker.Checker.CheckIncompatible | CmdLineChecker.cpp:75-79 | a message when both options are present; the map is untouched |
| CmdLineChecker.Checker.EndCheck | CmdLineChecker.cpp:83-88 | one "Unknown option" message per remaining key, in map order |
| CmdLineChecker.Checker.CheckArgs | CmdLineChecker.cpp:92-110 | the static check returns exactly `CheckSpec`: the calls of lines 96-107 in order, on a copy |
| CmdLineChecker.RulesListed | CmdLineChecker.cpp:97-106 | the rule list is the ten calls, in order |
| CmdLineChecker.ApplyFirstFive | CmdLineChecker.cpp:97-101 | the first five calls apply the first five rules |
| CmdLineChecker.ApplyLastFive | CmdLineChecker.cpp:102-106 | the last five calls apply the remaining rules |
| CmdLineChecker.ApplyStep | CmdLineChecker.cpp:97-106 | one call is one step of the rule sequence |
| QMake.CStr | QMake.cpp:123 | `strtok` on `c_str()` sees exactly the prefix of the text that ends at its first NUL, and the whole text when it holds none |
| QMake.TokenLen | QMake.cpp:122-135 | a token is the maximal run of non-delimiters |
| QMake.TokenLenOfRun | QMake.cpp:122-135 | a maximal run of non-delimiters is one token |
| QMake.TokensOfRun | QMake.cpp:123-135 | `strtok` returns the run and resumes after it |
| QMake.Tokens | QMake.cpp:122-135 | the successive results of `strtok(..., "\r\n")`: each maximal run of non-delimiters, runs of delimiters skipped |
| QMake.TokensWellFormed | QMake.cpp:122-135 | every token is non-empty and holds no `\r` or `\n`, so blank lines give no token |
| QMake.NonDelimitersOfToken | QMake.cpp:122-135 | a token's characters are kept when delimiters are dropped |
| QMake.TokensCoverText | QMake.cpp:122-135 | tokenising loses exactly the delimiters |
| QMake.TokensAppend | QMake.cpp:122-135 | a delimiter separates the text on its two sides into independent tokens |
| QMake.FirstTokenAppend | QMake.cpp:122-135 | the first token lies before a delimiter that follows it |
| QMake.IndexOf | QMake.cpp:126 | `find(':')` returns the first colon, or npos when there is none |
| QMake.SplitLine | QMake.cpp:126-128 | a line fails to split exactly when it has no `:`; otherwise key and value put back together with `:` give the line, and the key holds no `:` |
| QMake.SplitAtFirstColon | QMake.cpp:126-128 | the key is the text before the first `:` and the value all that follows, further colons included |
| QMake.Fill | QMake.cpp:124-136 | the `strtok` loop keeps the map sorted |
| QMake.VersionOf | QMake.cpp:138-143 | the version is the first character of `QT_VERSION`, or NUL when the key is missing or its value is empty |
| QMake.Value | QMake.cpp:154-160 | `value` returns the stored string, or "" for a missing key |
| QMake.ParseOutput | QMake.cpp:114-150 | empty output fails with an empty map and version NUL; any failure leaves the version NUL |
| QMake.FillAppend | QMake.cpp:124-136 | the loop over more lines continues from the map it had |
| QMake.LineWithoutColon | QMake.cpp:127-133 | a line without `:` at the end of the output makes `parse` fail, keeps the entries read before it, and leaves the version NUL |
| QMake.LineWithoutColonStops | QMake.cpp:127-133 | a line without `:` after lines that parse makes `parse` fail: the entries read before it stay, the lines after it are never read, and the version stays NUL |
| QMake.FillStops | QMake.cpp:127-133 | the `strtok` loop returns at a line without `:` with the map it has, whatever tokens follow |
| QMake.FirstLineWithoutColon | QMake.cpp:122-133 | a first line without `:` makes `parse` fail at once, whatever follows: the map stays empty and the version NUL |
| QMake.OnlyLineWithoutColon | QMake.cpp:122-133 | output that is one line without `:` makes `parse` fail with an empty map and a NUL version |
| QMake.FirstLineSets | QMake.cpp:122-135 | a first line `key:value` in output that parses sets key to value unless a later line sets it again; a variable no line sets reads as "" |
| QMake.OnlyLineSets | QMake.cpp:122-135 | output that is one line `key:value` parses, and the map holds that key alone, with that value |
| QMake.LaterLineWins | QMake.cpp:128 | a last line `key:value` sets key to everything after its first `:`, over any earlier line with the same key |
| QMake.LaterLineWinsAnywhere | QMake.cpp:122-135 | a line `key:value` after lines that parse, in output that parses, sets key to value unless a later line sets it again, and leaves every other variable that no later line sets as the earlier lines gave it |
| QMake.LineBetween | QMake.cpp:122-135 | a line between two newlines is one token, between the tokens of the text before and after it |
| QMake.FillSplit | QMake.cpp:124-136 | the loop over two runs of lines continues the second from the map the first left |
| QMake.FillKeeps | QMake.cpp:128 | lines that do not name a variable leave its stored value alone |
| QMake.FillOneLine | QMake.cpp:128 | one line with a colon stores its key and value |
| QMake.LastLine | QMake.cpp:122-135 | a line after a newline becomes the last token |
| QMake.SingleToken | QMake.cpp:122-135 | a text without delimiters is one token |
| QMake.TokenEnd | QMake.cpp:123-135 | the scan finds the end of the token `strtok` returns |
| QMake.SkipDelimiter | QMake.cpp:123 | `strtok` skips a delimiter |
| QMake.FillToken | QMake.cpp:124-136 | one token: a line without `:` stops the loop, any other is stored |
| QMake.QMake.constructor | QMake.cpp:57-60 | a new reader has version NUL and no values |
| QMake.QMake.QMakeName | QMake.cpp:46-52 | the qmake executable is `qmake.exe` on Windows and `qmake` on Linux |
| QMake.QMake.Find | QMake.cpp:64-96 | with a Qt directory qmake is looked for in its `bin`; otherwise in the working directory (the Qt path is then its parent) and else in its `bin`; success exactly when a path was kept; the version is reset |
| QMake.QMake.Query | QMake.cpp:100-110 | the output is the program's output when qmake was found, else empty; success exactly when it is non-empty |
| QMake.QMake.Parse | QMake.cpp:114-150 | the `strtok` loop leaves the map, the version and the result `ParseOutput` gives: pairs split at the first colon, later keys winning, failure at a line without a colon, the version the first character of a non-empty `QT_VERSION` |
| QMake.LastIndexOf | QMake.cpp:82 | `find_last_of` returns the last separator, or npos when there is none |
| QMake.OneLevelUp | QMake.cpp:80-85 | the directory is left whole exactly when it has no separator or ends with one; otherwise it is cut at its last separator, dropping a non-empty last component |

## Left out

- The `exec` orchestration (QtBinPatcher.cpp:557-614) is not modelled. main.cpp calls it with a different signature than the one shown. The call order is `getNewQtDir`, `isPatchNeeded`, `createPatchValues`, the two file lists, then the text and binary passes.
- Backup and restore (`TBackup`): Backup.hpp and Backup.cpp are not part of this model.
- File and process I/O are parameters or left out. This covers `fopen`/`fread`/`fwrite`/`zeroFile`/`rewind`/`getFileSize`, `getProgramOutput`, `isFileExists`, `currentDir`, `absolutePath` and the globbing of `findFiles`/`findFilesRecursive`. A failed `fopen`, read or write is not modelled. A file is its contents, and a non-empty text file is assumed to be read in full.
- `getQtDir` and `parseArgs` are not modelled. They only move values between the command-line parser and `TQMake`.
- Logging (`LOG*`) and `howToUseMessage` are not modelled. The list of option types follows the ten calls of the static check.
- Locale-dependent `tolower` is modelled as ASCII folding.
- Bytes are modelled as Dafny `char`s. The binary search compares them exactly, so nothing depends on signedness.
- BinPatch.BinReplaceAll: where the C++ `strcpy` would write past the end of the heap buffer, which is undefined behaviour, the model stops the pass and reports `Overflow`. It does not model what the program would then do.
- TextPatch.ReplaceAll: `Delta` is an unsigned offset in the code. The model does not model its wrap-around, since the buffer length bounds it.
- Idempotence of a full text pass under side conditions is not stated. The text pass is characterised by `Replaced` instead, and `ReplacedSelf` covers the case where the path is replaced by itself.
- The `assert(hasOnlyNormalSeparators(...))` of `isPatchNeeded` and `addTxtPatchValues` becomes a precondition (no backslash).
- QMake.QMake.Parse: `strtok` on `const_cast<char*>(m_QMakeOutput.c_str())` (QMake.cpp:123) writes a NUL over the delimiter after each token it returns, so the stored output is destroyed in place and a second `parse` would see only its first line. The model leaves `output` unchanged and so assumes `parse` runs once per `query`, as `exec` calls it.
