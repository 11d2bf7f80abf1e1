# aictx file-selection engine in Dafny

`aictx` turns a directory tree into text for a language model. It prints
either an outline of the tree or the contents of the selected source files
under numbered headers. This project models the engine that decides which
files are selected and how they are printed:

- the ignore-pattern matcher `matchPattern`, with `filepath.Match` underneath;
- the policy `isAllowed`: output-file self-exclusion, hidden files, the two
  core ignore tables, the user's ignore files, then the include and exclude lists;
- the reachability probe `hasAllowed`;
- the two tree builders, `filterTree` for tree mode and `filterSourceTree`
  for source mode, which also applies the size threshold;
- the tree summary and the three renderers;
- the helpers `fileHeader`, `isHidden`, `isBinary`, `formatSize` and
  `exceedsThreshold`;
- the git repository-name validator;
- the core ignore tables and their listing.

The model follows the Go code's own form.

- Code that loops and updates variables is a `method` with loop invariants.
  Examples: `IsAllowed`, the ignore-file scan, `isBinary`,
  `summary`, the builders and the renderers. Each method is
  proved equal to a specification function.
- `fileHeader` builds its buffer in straight-line steps. It is a method
  without a loop, proved equal to the function `Header`.
- The properties are lemmas about those functions.
- The Go `io.Writer` is the class `Output.Writer`, whose `chunks` field is
  appended to by `Write`, `WriteString` and `Fprintln`.
- The shared file counter of `printSourceFiles` is the class `Output.Counter`.
- The filesystem is a value, `FileSystem.Node`. A file may be unreadable and a
  directory unlistable. An unlistable directory makes `hasAllowed` and both
  builders fail. Only `filterTree` reads files (to mark them binary), so only it
  fails on an unreadable file. In source mode an unreadable file is still
  selected and numbered, and `printSourceFiles` skips it when its read fails.
- `printSourceFiles` reads file contents from a map from path to bytes. A
  path missing from the map is a failed read, which is logged and skipped.

Where the code and its surrounding prose disagree, the model follows the code:

- The command-line help describes the threshold as "files >= threshold", but
  `exceedsThreshold` is strict. A file of exactly the threshold size is kept.
- The filtered tree never holds an empty directory, with one exception:
  `filterTree` returns the root directory even when nothing below it is
  allowed. `filterSourceTree` skips such a root.
- A file that is selected but binary or unreadable still takes a number in
  `printSourceFiles`. The numbers of the printed headers can therefore skip
  values.

## Model

| member | source | states |
|---|---|---|
| Glob.TokenizePlain | internal/aictx/app.go:466-467 | a pattern without `*`, `?`, `[` or `\` parses into one literal token per character |
| Glob.MatchesLiteral | internal/aictx/app.go:466-467 | literal tokens match exactly the string they spell, in both directions |
| Glob.MatchesStar | internal/aictx/app.go:471-472 | `*` followed by more tokens matches a name iff some slash-free prefix can be consumed and the rest matched |
| Glob.StarAlone | internal/aictx/app.go:471-472 | a lone star matches exactly the names without `/` |
| Glob.StarGlob | internal/aictx/app.go:471-472 | the patterns `*` and `**` both match exactly the names without `/` |
| Glob.StarThenLiteral | internal/aictx/app.go:471-472 | a star then a literal matches iff the name ends with the literal and the part before it has no `/` |
| Glob.StarSuffixGlob | internal/aictx/app.go:471-472 | `*` plus a plain slash-free suffix matches iff the name has no `/` and ends with the suffix |
| Glob.MatchesLitOccurs | internal/aictx/app.go:466-472 | every literal character of a matching pattern occurs in the name |
| Glob.MatchesLength | internal/aictx/app.go:466-472 | a star-free pattern matches only names of exactly its token count |
| Glob.MalformedExamples | internal/aictx/app.go:440-441 | `[]a]`, `[a-]`, `[^]`, `[a` and a trailing backslash are malformed, so `err != nil` and matchPattern reports no match |
| Glob.ClassExample | internal/aictx/app.go:466-467 | a range class accepts a character inside the range and rejects one outside |
| Glob.NegatedClassExample | internal/aictx/app.go:466-467 | a negated class may match `/` while `?` never does |
| Glob.EscapeExample | internal/aictx/app.go:466-467 | an escaped star matches only a literal star |
| Glob.WildcardExample | internal/aictx/app.go:466-467 | `?` matches one character; `*` does not cross `/` |
| Patterns.SomePartIsMember | internal/aictx/app.go:453-458 | the segment loop returns true iff the pattern is one of the `/`-separated parts |
| Patterns.AnchoredRootOnly | internal/aictx/app.go:430-434 | an anchored pattern never matches a path that contains `/` |
| Patterns.AnchoredLiteral | internal/aictx/app.go:430-439 | an anchored literal matches exactly the root-level name equal to it without the leading `/` |
| Patterns.PrefixPattern | internal/aictx/app.go:445-448 | `d/**` matches `d` itself and everything under `d/`, and nothing else |
| Patterns.PrefixPatternExamples | internal/aictx/app.go:445-448 | `dir/**` matches `dir` and `dir/sub/file` but not `dirother` |
| Patterns.LiteralSegment | internal/aictx/app.go:451-461 | a slash-free literal matches iff it occurs as a whole `/`-delimited segment of the path |
| Patterns.LiteralWithSlash | internal/aictx/app.go:451-461 | a literal containing `/` matches only paths that start with it followed by `/` |
| Patterns.WildcardFullPath | internal/aictx/app.go:464-468 | a wildcard pattern with `/` is matched against the whole path |
| Patterns.WildcardBaseName | internal/aictx/app.go:470-472 | a wildcard pattern without `/` is matched against the base name only |
| Patterns.WildcardSameBase | internal/aictx/app.go:470-472 | two paths with the same base name get the same verdict from a slash-free wildcard pattern |
| Patterns.MalformedNeverMatches | internal/aictx/app.go:428-473 | a malformed wildcard pattern, anchored or not, matches nothing |
| Patterns.StarSuffixPattern | internal/aictx/app.go:470-472 | `*.ext` matches exactly the paths whose base name ends with `.ext` |
| Patterns.DoubleStar | internal/aictx/app.go:463-472 | `**` matches every path except one made only of slashes |
| Patterns.AnchoredDirectoryPattern | internal/aictx/app.go:430-441 | an anchored directory pattern such as `/build/**` matches no path at all |
| Text.SplitPartIff | internal/aictx/app.go:453-458 | a separator-free string is a part of `strings.Split` iff it is delimited by separators or the ends |
| Text.ItoaLength | internal/aictx/helpers.go:27 | the decimal form of `n` has at most `k` digits iff `n < 10^k` |
| Text.ZeroPad | internal/aictx/helpers.go:29 | `%0*d` gives the width or the digit count, whichever is larger: the digits, preceded only by `0` characters |
| Text.BaseSlash | internal/aictx/app.go:470-472 | `filepath.Base` contains `/` iff the path is only slashes, and then it is `/` |
| Utf8.ValidConcat | internal/aictx/helpers.go:60 | concatenating two valid UTF-8 sequences gives a valid one |
| Utf8.ValidExcludedBytes | internal/aictx/helpers.go:60 | bytes C0, C1 and F5 to FF never occur in valid UTF-8 (section 4 of RFC 3629) |
| Utf8.EncodeCharValid | internal/aictx/helpers.go:60 | the encoding of any scalar value is one valid UTF-8 character |
| Utf8.EncodeStringValid | internal/aictx/helpers.go:60 | the encoding of any string is valid UTF-8 |
| Utf8.EncodeStringZero | internal/aictx/helpers.go:55-59 | an encoded string contains a zero byte iff the string contains NUL |
| Helpers.IsHidden | internal/aictx/helpers.go:46-48 | a name is hidden iff it starts with `.` |
| Helpers.IsBinary | internal/aictx/helpers.go:51-61 | the scan returns true iff the data is non-empty and has a zero byte or is not valid UTF-8 |
| Helpers.TextBinaryIffNul | internal/aictx/helpers.go:51-61 | encoded text counts as binary iff it contains NUL, so the UTF-8 check never rejects text |
| Helpers.RoundHalfEven | internal/aictx/helpers.go:66-68 | the result is the integer nearest to `num/den`, ties going to the even one |
| Helpers.Fixed2 | internal/aictx/helpers.go:66-68 | `%.2f` output ends with a point and two decimals |
| Helpers.FormatSizeBranches | internal/aictx/helpers.go:64-71 | below 1024 sizes print as bytes, below 1 MiB as KB, otherwise as MB |
| Helpers.FormatSizeBytesExample | internal/aictx/helpers.go:70 | 1023 prints as `1023 B` |
| Helpers.FormatSizeKbExample | internal/aictx/helpers.go:67-68 | 1536 prints as `1.50 KB` |
| Helpers.FormatSizeTieDownExample | internal/aictx/helpers.go:67-68 | 1152 (exactly 1.125 KB) rounds to the even `1.12 KB` |
| Helpers.FormatSizeTieUpExample | internal/aictx/helpers.go:67-68 | 1408 (exactly 1.375 KB) rounds to the even `1.38 KB` |
| Helpers.FormatSizeMbExample | internal/aictx/helpers.go:65-66 | 1048576 prints as `1.00 MB` |
| Helpers.ThresholdBoundary | internal/aictx/helpers.go:74-77 | with a whole threshold `t`, a file is excluded iff it is larger than `t` MiB; exactly `t` MiB is kept, one byte more is excluded |
| Helpers.ThresholdMonotone | internal/aictx/helpers.go:74-77 | a file larger than an excluded one is excluded too |
| Helpers.NumInfoFits | internal/aictx/helpers.go:27-31 | for 64-bit counts the `[n/total]` label is at most 41 characters, so the 60-character line always has room |
| Helpers.CenteredFits | internal/aictx/helpers.go:31-34 | within the width, the label gets `rem/2` signs on the left and the rest on the right |
| Helpers.DelimiterShape | internal/aictx/helpers.go:25-34 | the delimiter line is exactly 60 characters plus a newline, with the label centred; the right padding is the left one or one more |
| Helpers.NumInfoExamples | internal/aictx/helpers.go:25-29 | the label is zero-padded to the width of the total: `[1/6]`, `[01/12]`, `[001/150]` |
| Helpers.FileHeader | internal/aictx/helpers.go:21-43 | the buffered writes produce the header text: delimiter, `File:` line, optional `Size:` line, rule |
| Helpers.HeaderShape | internal/aictx/helpers.go:36-41 | the header opens with the delimiter and `File:` line and ends with 60 dashes; a `Size:` line follows iff the size is positive |
| Output.Writer.Write | internal/aictx/app.go:774-776 | a write appends the bytes and nothing else |
| Output.Writer.WriteString | internal/aictx/core_ignores.go:55 | a formatted write appends exactly that text |
| Output.Writer.Newline | internal/aictx/app.go:778 | an empty `Fprintln` appends one newline |
| Output.Writer.Println | internal/aictx/app.go:722 | `Fprintln` appends the text followed by a newline |
| Output.Counter.Increment | internal/aictx/app.go:759 | the shared counter grows by one |
| Output.LineChunksAt | internal/aictx/app.go:720-742 | printing lines gives one chunk per line, each the line and a newline |
| Tree.Summarize | internal/aictx/app.go:618-638 | the recursive fold returns the specification summary of the node |
| Tree.SummaryIsLeafFold | internal/aictx/app.go:618-638 | the summary is (number of file leaves, sum of their sizes, largest size) |
| Tree.ChildrenSummaryIsLeafFold | internal/aictx/app.go:628-635 | after the first `i` children, the running summary covers exactly their leaves |
| Tree.MaxSize | internal/aictx/app.go:632-634 | the maximum bounds every leaf's size and is 0 for no leaves |
| Tree.MaxSizeAttained | internal/aictx/app.go:632-634 | for a non-empty leaf list the maximum is the size of some leaf |
| Tree.EmptyDirSummary | internal/aictx/app.go:627-637 | a directory without children summarises to (0, 0, 0) |
| Policy.AnyTrimmedMatch | internal/aictx/app.go:527-535 | the loop finds a hit iff some entry, trimmed and not empty, matches |
| Policy.AnyMatch | internal/aictx/app.go:512-516 | the loop over a core table finds a hit iff some untrimmed entry matches |
| Policy.IsAllowed | internal/aictx/app.go:481-567 | the chain of early returns decides exactly the policy predicate `Allowed` |
| Policy.OutputFileRejected | internal/aictx/app.go:482-485 | a path with the output file's base name is rejected in both modes |
| Policy.HiddenRule | internal/aictx/app.go:500-505 | unless hidden files are shown, a path or base name starting with `.` is rejected |
| Policy.HiddenRuleMissesInnerDirs | internal/aictx/app.go:500-505 | the hidden rule does not see a hidden directory in the middle of a path (`a/.cache/x`) |
| Policy.CoreSegmentRejected | internal/aictx/app.go:511-516 | a core entry that occurs as a path segment rejects the path in both modes |
| Policy.SourceTableOnlyInSourceMode | internal/aictx/app.go:511-524 | in tree mode only the both-modes table applies; a source-table hit rejects in source mode |
| Policy.NoCoreIgnoresDisablesTables | internal/aictx/app.go:511 | with core ignores disabled neither table rejects anything |
| Policy.UserPatternRejects | internal/aictx/app.go:527-535 | any non-blank user ignore entry that matches rejects the path |
| Policy.IncludePrecedence | internal/aictx/app.go:538-555 | include: mode list, else global, else `**`; exclude: mode list, else global |
| Policy.BlankIncludeRejectsAll | internal/aictx/app.go:538-552 | an include list whose entries are all blank matches nothing, so every path is rejected |
| Policy.CommaIncludeExample | internal/aictx/app.go:539-544 | `", ,"` splits into three blank entries |
| Policy.DefaultInclude | internal/aictx/app.go:538-549 | the default include `**` admits every path not made only of slashes |
| Policy.ExcludeRejects | internal/aictx/app.go:555-564 | any non-blank exclude entry that matches rejects the path |
| Policy.TreeModeIgnoresSourceSettings | internal/aictx/app.go:487-498 | the tree-mode verdict does not depend on any source-mode setting |
| Policy.SourceModeStricter | internal/aictx/app.go:517-523 | with equal mode settings, what source mode allows tree mode allows too |
| Policy.VendorExample | internal/aictx/app.go:517-523 | under defaults `vendor/x.go` is shown in the tree but left out of the source dump |
| Policy.LoadIgnorePatterns | internal/aictx/app.go:845-851 | the scan keeps each trimmed line that is neither blank nor a comment, in file order |
| Policy.IgnorePatternsAppend | internal/aictx/app.go:845-851 | the patterns of concatenated line lists are the concatenated patterns |
| Policy.IgnorePatternsClean | internal/aictx/app.go:846-850 | every loaded pattern is non-empty, not a comment, and already trimmed |
| Policy.IgnorePatternsCount | internal/aictx/app.go:845-851 | no more patterns than lines; exactly as many when every line is kept |
| Policy.IgnoreFileExample | internal/aictx/app.go:845-851 | `build`, `# c`, a blank line and `node_modules` load as `build`, `node_modules` |
| Policy.KeepFirstAndLast | internal/aictx/app.go:845-851 | dropped lines in the middle leave the kept ones in order, trimmed |
| Policy.LoadedPatternsHit | internal/aictx/app.go:527-535 | over loaded patterns the user-pattern rule fires iff some pattern matches as written: re-trimming changes nothing and no entry is blank |
| Policy.LoadedPatternRejects | internal/aictx/app.go:527-535 | a loaded pattern that matches the path rejects it in either mode |
| Policy.GitIgnoreOrder | internal/aictx/app.go:170-185 | `.aictxignore` patterns come first; `.gitignore` adds nothing when disabled or absent |
| Builder.AllowedIn | internal/aictx/app.go:577-581 | the filter keeps only files the policy allows |
| Builder.UnderThreshold | internal/aictx/app.go:397-400 | the filter keeps only files not over the threshold |
| Builder.SourceSelectionAppend | internal/aictx/app.go:374-408 | the source selection of a concatenation is the concatenation of the selections |
| Builder.HasAllowedSound | internal/aictx/app.go:570-596 | when the probe succeeds it answers true iff some file below is allowed |
| Builder.HasAllowedTotal | internal/aictx/app.go:570-596 | the probe never reads a file: it fails only if some directory is unlistable |
| Builder.HasAllowedIff | internal/aictx/app.go:570-596 | when every directory is listable, the probe returns whether the allowed files below are non-empty; an empty directory gives false |
| Builder.ChildrenFailurePersists | internal/aictx/app.go:683-705 | once one child fails, the loop returns that first error whatever follows |
| Builder.FilterTree | internal/aictx/app.go:644-717 | the recursive builder returns the specification outcome: node, skip or error |
| Builder.FilterDir | internal/aictx/app.go:672-716 | the directory loop returns the specification children or the first error |
| Builder.FilterTreeChild | internal/aictx/app.go:679-713 | one entry is probed, recursed into, or read for binary detection as specified |
| Builder.FilteredTreeLeaves | internal/aictx/app.go:644-717 | the tree's leaves are exactly the tree-mode-allowed files, with their sizes, in listing order |
| Builder.AllowedBlobsSizes | internal/aictx/app.go:577-581 | the allowed files with their contents are, position by position, the allowed files with their sizes |
| Builder.FilteredTreeMarks | internal/aictx/app.go:672-716 | below a directory root, the leaves show the allowed files in order, each with its size and marked binary exactly when isBinary holds of its content |
| Builder.LeafBinaryFlag | internal/aictx/app.go:700-712 | the k-th leaf has the k-th allowed file's path and is marked binary iff that file's content is binary |
| Builder.FileRootUnmarked | internal/aictx/app.go:664-669 | a root that is a file is kept iff allowed, as a leaf with its size that is never marked binary |
| Builder.FilteredTreeShape | internal/aictx/app.go:678-695 | files have no children and no directory below the root is empty |
| Builder.FilteredTreeTotal | internal/aictx/app.go:644-717 | a directory is never skipped, and a healthy tree never fails |
| Builder.EmptyRootKept | internal/aictx/app.go:672-716 | an empty root directory is returned as a childless node |
| Builder.FilterSourceTree | internal/aictx/app.go:337-414 | the source-mode builder returns the specification outcome |
| Builder.FilterSourceChildren | internal/aictx/app.go:374-408 | the directory loop returns the specification children or the first error |
| Builder.FilterSourceChild | internal/aictx/app.go:375-407 | one entry is probed, recursed into, or size-checked as specified |
| Builder.FilteredSourceTreeLeaves | internal/aictx/app.go:337-414 | the leaves are exactly the source-allowed files under the threshold, in order; a skip means there are none |
| Builder.SourceChildrenFailurePersists | internal/aictx/app.go:378-396 | once one child fails, the loop returns that first error |
| Builder.FilteredSourceTreeShape | internal/aictx/app.go:409-412 | files have no children and no directory, the root included, is empty |
| Builder.SourceLeavesSelected | internal/aictx/app.go:350-400 | every leaf is allowed in source mode and not over the threshold |
| Builder.UnderThresholdSubset | internal/aictx/app.go:397-400 | the threshold filter keeps only files it was given |
| Builder.FilteredSourceTreeTotal | internal/aictx/app.go:337-414 | source mode reads no file: when every directory is listable the builder never fails, unreadable files included |
| Builder.EmptyRootSkipped | internal/aictx/app.go:409-412 | an empty root directory is skipped |
| Render.PrintTree | internal/aictx/app.go:720-742 | the recursive printer appends exactly the specified tree output |
| Render.PrintChild | internal/aictx/app.go:727-740 | one child line with its connector, then its subtree when it is a non-empty directory |
| Render.TreeOutLines | internal/aictx/app.go:720-742 | the output is one `Fprintln` per outline line |
| Render.TreeOutline | internal/aictx/app.go:720-742 | the outline is the root name, then one line per node below in pre-order, each ending with that node's label |
| Render.TreeLinesLabelled | internal/aictx/app.go:726-740 | under a non-empty prefix, every line starts with the prefix and ends with its node's label |
| Render.LabelMark | internal/aictx/app.go:727-730 | a label ends with ` *` iff the node is a binary file or its name already ends so |
| Render.TreeLinesExample | internal/aictx/app.go:720-742 | a small tree prints with `├──`, `│   ` and `└──` connectors and the binary mark |
| Render.PrintFile | internal/aictx/app.go:757-779 | a file leaf prints header, data and newline, or nothing when unreadable or binary |
| Render.PrintSourceFiles | internal/aictx/app.go:747-789 | the counter grows by the number of leaves, and the output is the specified walk |
| Render.PrintFileRaw | internal/aictx/app.go:801-815 | a file leaf prints data and newline, or nothing when unreadable or binary |
| Render.PrintSourceFilesRaw | internal/aictx/app.go:793-826 | the output is the specified raw walk |
| Render.SourceOutLeaves | internal/aictx/app.go:747-789 | the output is the leaves in order, the k-th numbered start+k+1 |
| Render.RawOutLeaves | internal/aictx/app.go:793-826 | the raw output is the leaves in order |
| Render.HeaderNumbering | internal/aictx/app.go:759-772 | the k-th leaf is printed under number start+k+1, whether or not earlier leaves printed anything |
| Render.LeafData | internal/aictx/app.go:761-778 | both renderers write the same file bytes for a leaf, or none |
| Render.RenderersAgree | internal/aictx/app.go:747-826 | both renderers write the same file contents in the same order: the readable text leaves |
| CoreTables.CoreIgnoresAreSegments | internal/aictx/core_ignores.go:11-14 | each both-modes entry matches iff it occurs as a path segment |
| CoreTables.StarEntryShape | internal/aictx/core_ignores.go:27-44 | each `*` entry is a star followed by plain characters with no `/` |
| CoreTables.SourceWildcardByBaseName | internal/aictx/core_ignores.go:27-44 | each `*` entry matches iff the base name ends with the text after the star |
| CoreTables.Indented | internal/aictx/core_ignores.go:54-60 | each pattern is written as two spaces, the pattern and a newline |
| CoreTables.PrintIndented | internal/aictx/core_ignores.go:54-56 | the loop writes the indented patterns in table order |
| CoreTables.PrintCoreIgnores | internal/aictx/core_ignores.go:52-61 | the listing is header, both-modes table, blank line, source header, source table |
| CoreTables.ListingShape | internal/aictx/core_ignores.go:52-61 | the listing text is 3 plus the table sizes in lines, with each line in place |
| CoreTables.CoreListingLength | internal/aictx/core_ignores.go:11-61 | the printed listing has 34 lines |
| Git.SplitBranch | internal/aictx/git.go:66-71 | the branch after the last `@` contains no `@`; without `@` there is no branch |
| Git.GitHubPath | internal/aictx/git.go:78-85 | the normalised path always starts with `github.com/` |
| Git.ValidateGitRepoName | internal/aictx/git.go:45-88 | branches never hold `@`; an ssh input always succeeds as ssh; any other success is `https://github.com/….git` |
| Git.HttpsRepo | internal/aictx/git.go:66-87 | a success is an `https://github.com/` URL ending in `.git` |
| Git.SshRepo | internal/aictx/git.go:54-64 | an ssh input always succeeds and keeps the `git@` prefix |
| Git.EmptyOrDotRefused | internal/aictx/git.go:46-49 | a blank or `.` input is refused as an invalid name |
| Git.RefusedExactly | internal/aictx/git.go:45-88 | validation fails iff the input is blank or `.`, or it is not ssh and has no `/` before the branch |
| Git.SshWithoutBranch | internal/aictx/git.go:54-64 | an ssh URL with no second `@` is returned unchanged with no branch |
| Git.SshWithBranch | internal/aictx/git.go:54-64 | an ssh URL with a second `@` splits into URL and branch at the last `@` |
| Git.NoAtNoBranch | internal/aictx/git.go:66-71 | an input without `@` yields no branch |
| Git.PlainPath | internal/aictx/git.go:73-87 | a path with `/` and no `@` becomes the GitHub URL of its normalised path |
| Git.BranchSuffix | internal/aictx/git.go:66-87 | appending `@branch` keeps the URL and sets the branch |
| Git.UrlFixedPoint | internal/aictx/git.go:78-87 | a normalised URL validates to itself |
| Git.NormalisedIsFixed | internal/aictx/git.go:78-87 | validating is idempotent on its https output |
| Git.HttpLikeHttps | internal/aictx/git.go:78-79 | `http://` and `https://` spellings give the same result |
| GitCases.OwnerPath | internal/aictx/git.go:73-87 | an `owner/repo` path gets `https://github.com/` and `.git` added |
| GitCases.HostPath | internal/aictx/git.go:82-87 | a `github.com/` path gets only the scheme and `.git` added |
| GitCases.HostBranch | internal/aictx/git.go:66-87 | a `github.com/` path with a branch keeps the branch |
| GitCases.SchemeOptional | internal/aictx/git.go:78 | an `https://` prefix on a GitHub path changes nothing |
| GitCases.HttpHost | internal/aictx/git.go:79-87 | an `http://` GitHub path is upgraded to `https://` |
| GitCases.FullUrl | internal/aictx/git.go:78-87 | a full GitHub URL is returned unchanged |
| GitCases.SshPlain | internal/aictx/git.go:54-64 | an ssh URL without a branch is returned unchanged |
| GitCases.SshBranch | internal/aictx/git.go:54-64 | an ssh URL with a branch is split at the last `@` |
| GitCases.NoSlashRefused | internal/aictx/git.go:73-76 | a name without `/` is refused with the invalid-format error |
| GitCases.BranchNoSlashRefused | internal/aictx/git.go:66-76 | the `/` check looks at the part before the branch only |
| GitCases.FooAtBarCase | internal/aictx/git.go:66-76 | `foo@bar` is refused with the invalid-format error for `foo` |
| GitCases.EmptyCase | internal/aictx/git_test.go:19-28 | the empty and `.` inputs are refused |
| GitCases.FooBarCase | internal/aictx/git_test.go:29-33 | `foo/bar` becomes `https://github.com/foo/bar.git` |
| GitCases.FooBarDevCase | internal/aictx/git_test.go:34-39 | `foo/bar@dev` gives the same URL and branch `dev` |
| GitCases.HostCase | internal/aictx/git_test.go:40-44 | `github.com/foo/bar` gets the scheme and `.git` |
| GitCases.HostFeatureCase | internal/aictx/git_test.go:45-50 | `github.com/foo/bar@feature` gives branch `feature` |
| GitCases.HttpsCase | internal/aictx/git_test.go:51-55 | a full URL is unchanged |
| GitCases.HttpCase | internal/aictx/git_test.go:56-60 | an `http://` URL is upgraded |
| GitCases.NoSlashCase | internal/aictx/git_test.go:61-65 | `foobar` is refused |
| GitCases.SshCase | internal/aictx/git_test.go:66-70 | an ssh URL without a branch is unchanged |
| GitCases.SshBranchCase | internal/aictx/git_test.go:71-76 | an ssh URL with `@feature-branch` is split |

## Left out

- I/O, context cancellation, logging, the progress spinner and the write errors that are only logged are not modelled. Each renderer's writes go to `Output.Writer` as a sequence of chunks.
- The `Run` orchestration, the remote-repository clone, the command-line layer, the `fsutils` helpers and the README generator are not part of this model. Of `Run`, only the ignore-file load order is kept (`Policy.UserPatterns`).
- A failed `Stat` is not modelled. The builders fail only on an unlistable directory or an unreadable file.
- Failing to open or scan an ignore file is not modelled, and neither is the scanner's line-length limit. An ignore file is either absent or a list of lines.
- Windows path separators are not modelled (`filepath.ToSlash` is the identity). `filepath.Join` is modelled without `Clean`: a `.` root gives the bare name, any other root gives `root/name`.
- Glob: `filepath.Match` is modelled on characters, with full backtracking over stars. Go's star instead advances byte by byte and commits to the first position where the next chunk matches. The two differ in two ways. First, in Go a `?` or a character class right after a star can start inside a multibyte UTF-8 character: Go's `Match("*??", "€")` is true, while the model says false. Second, a character class that can match `/` can make Go's first position the wrong one: Go's `Match("*[x/]*b", "x/b")` is false, while the model says true.
- Glob.MatchesStar: its iff is over characters. It does not capture Go's star stopping inside a multibyte character before a `?` or character-class chunk, nor Go's commitment to the first matching position.
- Glob: a malformed pattern is rejected as a whole, as Go 1.16+ does. Older Go versions could report a match before reaching the bad part.
- Helpers.Fixed2: `%.2f` is modelled as round-half-even of the exact quotient. This equals Go's `float64` formatting while the size fits in 53 bits.
- Helpers.ExceedsThreshold: the threshold is an exact real, not a `float64`.
- Helpers.Centered: for a label wider than 60 characters it pads with nothing, where Go's `strings.Repeat` would panic. Helpers.NumInfoFits shows this cannot happen for 64-bit counts.
- 64-bit overflow of sizes, counts and the summary fold is not modelled: sizes are unbounded naturals.
- Git.ValidateGitRepoName: the `fmt.Errorf` message text is modelled only as the error value `RepoError`.
- The general Git lemmas carry side conditions, such as the input being already trimmed or not starting with `h` or `g`. The table cases are instances of them.
- The loop bodies of the recursive builders and renderers are factored into helper methods, `FilterTreeChild`, `FilterSourceChild`, `PrintChild`, `PrintFile` and `PrintFileRaw`, so that each loop's frame reasoning stays small.
