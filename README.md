# WebManager directory classifier, modelled in Dafny

WebManager is a small web file browser. Its `app/directory.go` lists a directory, hides dot-files, classifies every other file by extension and MIME type, and groups the results by category and type label for display. This project models that file. It contains the `Type` and `File` records and the extension and MIME lookup tables with the classifier built on them (`getKnownExt`, `getKnownMime`, `getKnownType`). It also models `cleanName` and the parts of `filepath.Base`/`filepath.Ext` the classifier needs, plus the two loops over a listing, `CountFilesInDir` and `ProcessDir`. The project proves what those promise.

Modules:

- `Text` (`text.dfy`): `strings.Split` with a one-character separator, with its round trip against `Join`. It also has `strings.ToUpper` and `strings.Title` on ASCII.
- `FilePath` (`filepath.dfy`): `filepath.Base` and `filepath.Ext` for `/`-separated paths, and the source's `cleanName`.
- `Types` (`types.dfy`): the label and category constants, `Type`, the four lookup tables, and the three classification functions, with worked examples (`image/png`, `song.mp3`, `data.xyz`).
- `Scanner` (`scan.dfy`): `File`, the grouped result and the listing entry.
  - `CountFilesInDir` and `ProcessDir` are methods whose loops mirror the source.
  - `Scan` is the function that says what `ProcessDir` builds. `ProcessDir`'s postcondition is that it returns exactly `Scan` of the listing.
- `Sums` (`sums.dfy`): sums over map values, used to count records.
- `ScanProps` (`scan_props.dfy`): reference definitions that filter the listing directly. It proves:
  - the scan agrees with the reference definitions: order, no duplicates, the right bucket;
  - hidden entries never appear;
  - the shape of the `Directory` key;
  - how the number of records relates to `CountFilesInDir`.

The directory listing is an input: a `Result` holding either the entries (name, is-directory, size) or the listing error, which is returned before anything is classified. The MIME resolver (`mime.TypeByExtension`) and the size formatter (`humanize.Bytes`) are function parameters, `resolve` and `humanize`. The resolver returns `""` for "unknown".

The source panics in two places, and the model states each as a precondition:

- `getKnownMime` indexes `s[1]`, so it needs a MIME string containing `/`.
- `ProcessDir` uses type assertions that fail when the `Directory` key is wanted both as a flat list and as a label map. That happens when the listing has a visible directory and also a file whose MIME top-level type title-cases to `Directory` and whose subtype (its label) is not empty. A file with an empty label is dropped at app/directory.go:174, before the assertion. `Scanner.NoPanic` states exactly this condition.

Behaviours of the code that the proofs make explicit:

- A file whose type has an empty label is computed but silently dropped from `ProcessDir`'s result (app/directory.go:174). This is not hypothetical: a file without an extension asks the resolver about `""`. When the resolver has nothing, the extension table gives `{Other, ""}` and the file disappears. `CountFilesInDir` still counts it. `ScanProps.ScanCount` gives the exact balance, and `ScanProps.CountMatchesTotal` states when the two agree.
- Outside `application`, `audio` and `video`, the category is the title-cased top-level type. That category is `Other` only for the top-level types `other` and `Other` (`Types.TitleIsOtherOnlyFor`). So "never `Other` in that branch" holds for every other top-level type.
- The `Directory` key holds a flat list exactly when a visible directory was scanned. It holds a label map exactly when a file was classified under a `Directory` category with a non-empty label. On a listing that does not panic, these two cases never both occur (`ScanProps.DirectoryShape`).

## Model

| member | source | states |
|---|---|---|
| Text.Split | app/directory.go:71 | `strings.Split` gives at least one piece. There is more than one exactly when the separator occurs, and no piece contains the separator. |
| Text.SplitThenJoin | app/directory.go:71 | Joining the pieces of a split with the separator gives back the original string. |
| Text.JoinThenSplit | app/directory.go:71 | Splitting a join of separator-free pieces gives back the pieces. |
| Text.SplitWithoutSep | app/directory.go:71 | A string without the separator splits to itself alone. |
| Text.SplitAtFirst | app/directory.go:71 | The first piece is exactly the text before the first separator. The rest is the split of what follows it. |
| Text.UpperChar | app/directory.go:96-97 | `unicode.ToUpper` on ASCII: the result is never a lower-case ASCII letter, a lower-case letter becomes upper-case, and no other character changes. |
| Text.Upper | app/directory.go:97 | `strings.ToUpper` keeps the length and upper-cases every character on its own. |
| Text.IsSeparator | app/directory.go:96 | The word-boundary test `strings.Title` uses, restricted to ASCII: every ASCII character other than a letter, a digit or `_` separates words. Non-ASCII characters never separate. This is a predicate with no contract of its own; `Text.TitleAfter` and `Text.Title` state what it decides. |
| Text.TitleAfter | app/directory.go:96 | Title-casing keeps the length. It upper-cases exactly the characters that follow a word separator. |
| Text.Title | app/directory.go:96 | `strings.Title` upper-cases the first character and every character after a separator. Everything else is unchanged. |
| Text.TitleOfWord | app/directory.go:96 | A single word gets only its first letter upper-cased. |
| FilePath.TrimTrailingSeparators | app/directory.go:119 | The result is no longer than the path and does not end in a separator. |
| FilePath.TrimmedPrefix | app/directory.go:119 | Trimming removes only separators, and only at the end. |
| FilePath.LastElement | app/directory.go:119 | The last element contains no separator, and it is non-empty when the path does not end in one. |
| FilePath.LastElementSuffix | app/directory.go:119 | The last element is the suffix after the last separator of the path. |
| FilePath.LastElementWhole | app/directory.go:119 | A path without separators is its own last element. |
| FilePath.Base | app/directory.go:119 | `filepath.Base` is never empty and is `/` or separator-free. A plain name is its own base. |
| FilePath.CleanName | app/directory.go:118-122 | `cleanName` is never empty and is `/` or separator-free. It is the identity on plain listing names. |
| FilePath.Ext | app/directory.go:108 | The extension is no longer than the path, and when non-empty it starts with `.`. |
| FilePath.ExtSuffix | app/directory.go:108 | The extension is a suffix of the path with no further `.` or separator after its first character. |
| FilePath.ExtOfLastElement | app/directory.go:108 | The extension lies within the last element. It is empty exactly when that element has no `.`. |
| FilePath.ExtOfSuffix | app/directory.go:108 | A name ending in `.rest` (no `.` or separator in `rest`) has extension `.rest`. |
| Types.GetKnownExt | app/directory.go:55-66 | Gives the table entry for `.pages`, `.asd`, `.srt` and `.txt`. The category is `Other` exactly for every other extension, and then the label is the extension itself. The result always has a category. |
| Types.MimeFields | app/directory.go:71 | For `top/sub[/...]`, `s[0]` is `top` and `s[1]` is `sub`. |
| Types.GetKnownMime | app/directory.go:68-104 | Gives the table entry for a known subtype of `application`, `audio` or `video`, and `{Other, s[1]}` for an unknown one. Any other top-level type gives `{Title(s[0]), ToUpper(s[1])}`. Requires a `/`, as `s[1]` does. |
| Types.TitleIsOtherOnlyFor | app/directory.go:95-99 | A top-level type title-cases to `Other` only if it is `other` or `Other`. |
| Types.SynthesizedCategory | app/directory.go:95-99 | In the default branch the category is the title-cased top-level type and the label the upper-cased subtype. It is `Other` only for the top-level type `other`/`Other`. |
| Types.ImagePng | app/directory.go:95-99 | `image/png` is classified `{Image, PNG}`. |
| Types.GetKnownType | app/directory.go:106-116 | The extension table is used exactly when the resolver answers `""`, and the MIME tables otherwise. The category is non-empty. |
| Types.OtherFallback | app/directory.go:106-116 | An extension or subtype missing from the tables falls back to `Other`, labelled with the raw extension or subtype. |
| Types.ExtensionlessIsUnlabelled | app/directory.go:106-116 | A name without `.`, when the resolver does not know `""`, is classified `{Other, ""}`. |
| Types.SongMp3 | app/directory.go:106-116 | `song.mp3`, resolved to `audio/mpeg`, is MP3 audio. |
| Types.DataXyz | app/directory.go:106-116 | `data.xyz`, unknown to the resolver and to the table, is `{Other, .xyz}`. |
| Scanner.Hidden | app/directory.go:131-132 | An entry is hidden when its cleaned name starts with `.`. Both loops use this same test (also at lines 150-151). It is a predicate with no contract of its own; `ScanProps.HiddenNeverListed` and `Scanner.CountStep` state its effect. |
| Scanner.VisibleCount | app/directory.go:130-135 | The number of entries whose cleaned name does not start with `.` is at most the number of entries. |
| Scanner.Increment | app/directory.go:133 | `count++` on a `uint64`: the result stays below 2^64 and is the successor modulo 2^64, so the largest value wraps to 0. |
| Scanner.IncrementWraps | app/directory.go:133 | `count++` on a `uint64` keeps the count equal to the true count modulo 2^64. |
| Scanner.CountStep | app/directory.go:130-135 | Each iteration adds one exactly for a visible entry, directories included, modulo 2^64. |
| Scanner.CountFilesInDir | app/directory.go:124-137 | Returns the listing error unchanged. Otherwise it returns the number of visible entries, directories and files alike, as a `uint64`, without classifying anything. |
| Scanner.Classify | app/directory.go:166 | The type of a visible file is `getKnownType` of its cleaned name, not of the original name. Its only precondition is the resolver answer `getKnownMime` can split. It has no contract of its own; `Types.GetKnownType` states what it returns. |
| Scanner.NoPanic | app/directory.go:145-186 | Holds exactly when neither of the source's two panics happens. First, every visible file resolves to a MIME answer that is `""` or contains `/`. Otherwise `s[1]` at line 90, 92, 94 or 97 is out of range. Hidden entries and directories are never classified, so they are unconstrained. Second, the listing does not have both a visible directory and a visible file classified under `Directory` with a non-empty label. In either order, the second of the two fails a type assertion: line 180 when the directory came first, line 164 when the file came first. It is the precondition of `Scanner.ProcessDir` and of the lemmas about `Scanner.Scan`. |
| Scanner.DirFile | app/directory.go:158-163 | The record of a directory: its original name, `IsDir` set, a nil type, category `Directory`, and empty extension and size. It has no contract of its own; `ScanProps.Dirs` and `ScanProps.HiddenNeverListed` state these fields for every listed directory. |
| Scanner.FileOf | app/directory.go:167-173 | The record of a file: its original name, the type computed from the cleaned name, that type's category, `filepath.Ext` of the original name, and the humanized size. It has no contract of its own; `ScanProps.Members` states these fields for every listed file. |
| Scanner.AppendDir | app/directory.go:155-164 | Appending to the `Directory` list, which is created empty when absent. It has no contract of its own; `Scanner.AppendDirShape`, `ScanProps.TotalAppendDir` and `Scanner.AppendDirInPlace` state its effect. |
| Scanner.AppendTyped | app/directory.go:175-185 | Appending to the list of one label of one category. The category map and the label list are created empty when absent. It has no contract of its own; `Scanner.AppendTypedShape`, `ScanProps.TotalAppendTyped` and `Scanner.AppendTypedInPlace` state its effect. |
| Scanner.AddEntry | app/directory.go:145-189 | One iteration of the loop. A hidden entry changes nothing. A directory appends its record to the `Directory` list. A file appends its record under its category and label, and changes nothing when the label is empty. `Scanner.Scan` folds it over the listing. It has no contract of its own; `Scanner.AddEntryShape` and the `ScanProps.AgreesAfter` lemmas state its effect. |
| Scanner.AppendDirShape | app/directory.go:155-164 | Appending a directory record keeps the result well formed and leaves a list under `Directory`. |
| Scanner.AppendTypedShape | app/directory.go:174-186 | Appending a file record keeps the result well formed and leaves a label map under its category. |
| Scanner.AddEntryShape | app/directory.go:145-189 | One iteration keeps the result well formed. The `Directory` key turns into a list only for a directory, and into a label map only for a file classified under `Directory` with a non-empty label. |
| Scanner.Scan | app/directory.go:145-189 | The grouped result is well formed: only `Directory` may hold a list, and no bucket, label or list is empty. Each shape of the `Directory` key is backed by an entry that needs it. |
| Scanner.ScanStep | app/directory.go:145-189 | On a listing that does not panic, iteration `i` finds the bucket of the kind it needs, and adding the entry extends the result by one step. |
| Scanner.AppendDirInPlace | app/directory.go:155-164 | Creating the directory list on first use and then appending gives the list with the record added at the end. |
| Scanner.AppendTypedInPlace | app/directory.go:174-186 | Creating the category's label map and the label's list on first use and then appending adds the record at the end of that one list. |
| Scanner.ProcessDir | app/directory.go:139-210 | Returns the listing error unchanged. Otherwise it returns exactly `Scan` of the listing. |
| ScanProps.Dirs | app/directory.go:154-164 | The directory records are at most one per entry. Each is a directory with a nil type under `Directory`, whose cleaned name does not start with `.`. |
| ScanProps.Members | app/directory.go:165-186 | Every record under `{c, k}` is a file of type `{c, k}` in category `c`, with its extension, and its cleaned name does not start with `.`. |
| ScanProps.Dropped | app/directory.go:174 | The number of dropped files is zero exactly when every visible file has a non-empty label. |
| ScanProps.AgreesAfterDir | app/directory.go:155-164 | A visible directory joins the end of the directory list, and no label list changes. |
| ScanProps.AgreesAfterUnlabelled | app/directory.go:174 | A file with an empty label changes nothing. |
| ScanProps.AgreesAfterLabelled | app/directory.go:174-186 | A file with a label joins the end of its own label list, and nothing else changes. |
| ScanProps.LabelledStepAt | app/directory.go:174-186 | After a labelled file, the list under any label equals its reference. |
| ScanProps.ScanAgreesWithReference | app/directory.go:145-189 | The directory list is exactly the visible directories, and each label list exactly the visible files of that type, each once and in listing order. |
| ScanProps.EmptyLabelNeverListed | app/directory.go:174 | No list is filed under an empty label. |
| ScanProps.HiddenNeverListed | app/directory.go:151-152 | No record in any list has a cleaned name starting with `.`. Every record sits under its own category and label. |
| ScanProps.VisibleDirListed | app/directory.go:154-164 | Every visible directory has its record in the directory list. |
| ScanProps.VisibleFileListed | app/directory.go:165-186 | Every visible file has its record among the members of its own type. |
| ScanProps.DirectoryShape | app/directory.go:155-157 | Every key other than `Directory` holds a label map. `Directory` holds a list exactly when a visible directory exists, and a label map exactly when a file is classified under `Directory` with a non-empty label. |
| ScanProps.TotalAppendDir | app/directory.go:164 | Appending to the directory list adds exactly one record. |
| ScanProps.TotalAppendTyped | app/directory.go:185 | Appending to a label list adds exactly one record. |
| ScanProps.ScanCount | app/directory.go:124-189 | The records of `ProcessDir` plus the dropped files add up to `CountFilesInDir`'s count, before wrap-around. |
| ScanProps.CountMatchesTotal | app/directory.go:124-189 | Before wrap-around, the count of `CountFilesInDir` equals the number of records of `ProcessDir` exactly when no visible file gets an empty label. |
| ScanProps.ExtensionlessDropped | app/directory.go:166-186 | In any listing that does not panic, a visible file whose base name has no extension, when the resolver knows nothing for `""`, appears in no bucket. The dropped count is then positive, so the records are fewer than the count before wrap-around. |

## Left out

- `ioutil.ReadDir` is I/O: the listing and its error are the input `Result<seq<Entry>>`. Only the name, the directory flag and the size of each entry are kept.
- `mime.TypeByExtension` is a system lookup whose tables are not visible: it is the parameter `resolve`, an arbitrary function.
- `humanize.Bytes` is a library formatting call: it is the parameter `humanize`. The `uint64` conversion of a size is not modelled, because sizes are taken as non-negative.
- `log.Println` and the commented-out debug printing (app/directory.go:152, 190-208) are output only.
- `strings.Title` and `strings.ToUpper` are modelled for ASCII. Unicode case mapping and Unicode word boundaries are not.
- `filepath.Base` is modelled for `/`-separated paths, without volume names. `filepath.Clean` is not modelled beyond `cleanName`, where it is the identity on every output of `Base`.
- The `Category` type is declared outside app/directory.go and is taken to be a string here.
- Go pointers are values: the `*Type` of a `File` is an `Option<Type>`, and the inner label map, which the source mutates through the outer map, is written back to it. Aliasing between records is not modelled.
- The two panics (a MIME string without `/`, and the `Directory` key wanted as both shapes) are preconditions of `Types.GetKnownMime` and `Scanner.ProcessDir`. The panic itself is not modelled.
- Types.GetKnownType: the non-empty category is proved only when the resolver answers `""` or a MIME type whose top-level part is non-empty. A resolver answer such as `/x` gives an empty category in the source as well.
