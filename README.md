# svn-diff: the diff parser and the template engine

This project models two line-oriented text processors from svn-diff, a tool that mails out the output of `svn diff`. It also proves what they promise.

**The diff parser**, `svndiff/diffparser.py`:
- `get_files` turns diff text into one `File` record per `Index: ` line. Each record has a path and a URL under the repository's base URL. Its type is always `"mod"` and its change list is empty. The code extracts no revisions and classifies nothing, and the model keeps exactly that.
- `File.__repr__` prints a file as `File <path> (<type>)`.
- `_diff_to_hdf` is the hunk reader of a unified diff. The model covers its parse, up to the HTML conversion:
  - lines up to a `--- ` line are comments;
  - a `--- ` line must be followed by a `+++ ` line;
  - each `@@ -a,b +c,d @@` header opens a group of blocks and sets two line counters;
  - hunk lines are read while a counter is short of its end or the line is a `\` line;
  - a block is a run of context lines (`unmod`) or a run of removed and added lines (`mod`);
  - a second pass re-types a `mod` block with no base lines as `add`, and one with no changed lines as `rem`.

**The template engine**, `svndiff/template.py`:
- `eval_expr` evaluates a dotted path: the first name comes from the context, and each later part is an attribute, called when it is a method, until a None is reached.
- `render` goes through a template line by line:
  - it replaces each `${path}`;
  - it keeps a stack of `#if` values;
  - it collects a `#for` body up to the matching `#endfor` by counting depth, then renders the body once per element in a copy of the context.

## Structure

- `pytext.dfy` (`PyText`): the Python string built-ins the code relies on. These are `splitlines`, `strip`, `split`, `startswith`/`endswith`, `find`, `replace` and `join`, with Python 2 rules for 8-bit strings.
- `difffiles.dfy` (`DiffFiles`): `Change`, `File`, `File.__repr__` and `get_files`.
- `difffiles_examples.dfy` (`DiffFilesExamples`): the example in the documentation of `get_files`.
- `unified_diff.dfy` (`UnifiedDiff`): the parse and the re-typing of `_diff_to_hdf`.
  - Each loop of the source is a method with a loop.
  - Each method is proved equal to a function that describes the parse one line at a time.
- `unified_diff_facts.dfy` (`UnifiedDiffFacts`): what the parse promises. This covers the header round trip, the shape of every group and the failure cases.
- `unified_diff_hunks.dfy` (`UnifiedDiffHunks`): the lines of one hunk. The parse of each context, removed or added line is shown equal to a reference step `Step`. A whole hunk, whether another line follows it or it ends the input, is then read as one group whose lines are the hunk's texts, side by side.
- `template_values.dfy` (`TemplateValues`):
  - the values a template is rendered with;
  - getattr, callable, `str()` and truth testing on them;
  - the context as a class;
  - `eval_expr`.
- `template.dfy` (`Template`):
  - the three regular expressions, written out as recognisers;
  - `render` as a method, proved equal to the function `RenderText`;
  - the loop over a collection, which recurses into `Render`.
- `template_facts.dfy` (`TemplateFacts`): what rendering promises. This covers plain lines, substitution, the `#if` stack, `#for` bodies and loop passes.
- `template_exprs.dfy` (`TemplateExprs`): lines with any number of `${path}` expressions, repeats included. It covers what `findall` finds, what each `replace` changes, and what such a line renders as, alone or as a loop body.

Two places where what the code does differs from what it says, and where the model follows the code:
- `get_files` neither reads revisions nor tells added files from removed ones, although its documentation speaks of modified, added and deleted files. Every `File` is `"mod"` with no changes.
- `_diff_to_hdf` never binds `last_side` before the first `+` or `-` line. A `\` line ahead of every such line therefore raises `UnboundLocalError` instead of returning None. The model gives this outcome its own name, `Raised`.

The `#if` stack is unbalanced as written:
- while the innermost value is false, every later line is dropped, including the `#endif` lines, so the stack is never popped;
- a false `#if` therefore drops the rest of the template as far as the next `#for`/`#endfor` line.

`FalseIf` proves this.

The `#for` depth count is unbalanced as written too:
- an `#endfor` line outside any loop is not output; it takes the count from 0 to -1 and is kept at the head of the body being collected;
- a later `#for` line then opens a loop with the count at 0, so its own `#endfor` takes the count back to -1 instead of closing the loop;
- that loop, and every line after it, is silently dropped, unless further `#for` lines bring the count up to 1 at an `#endfor`.

The model follows this. `ForBlock` covers the balanced case: a loop that opens with the count at 0 and nothing collected.

## Model

| member | source | states |
|---|---|---|
| DiffFiles.GetFiles | svndiff/diffparser.py:66-80 | the files returned are those collected over the lines of the diff, with the base URL's trailing "/" dropped |
| DiffFiles.FilesMatchIndexLines | svndiff/diffparser.py:69-78 | there is exactly one File per line that starts with "Index: ", in input order; the k-th File is built from the k-th such line |
| DiffFiles.IndexPositionsExact | svndiff/diffparser.py:70-71 | the positions of the "Index: " lines are increasing and are exactly the lines that start with "Index: " |
| DiffFiles.FilesAreUnclassified | svndiff/diffparser.py:72-77 | every File has type "mod" and no changes; its path is an "Index: " line of the input without the 7-character prefix; its url is the base, "/" and the path |
| DiffFiles.StripSlash | svndiff/diffparser.py:66-67 | the base URL loses exactly one trailing "/" when it ends with one, and is kept otherwise |
| DiffFiles.OtherLinesIgnored | svndiff/diffparser.py:70-71 | a line that does not start with "Index: " adds no File |
| DiffFiles.NoIndexLines | svndiff/diffparser.py:69-80 | lines none of which starts with "Index: " give no files |
| DiffFiles.EmptyDiff | svndiff/diffparser.py:69-80 | an empty diff gives no files |
| DiffFiles.IndexLine | svndiff/diffparser.py:71-77 | a single "Index: " line gives its own File |
| DiffFiles.FilesOfAppend | svndiff/diffparser.py:70-78 | collecting over two stretches of lines is collecting over each in turn |
| DiffFiles.FileForIndex | svndiff/diffparser.py:72-77 | the File of "Index: " + path has that path, type "mod", url base + "/" + path and no changes |
| DiffFiles.ReprRoundTrip | svndiff/diffparser.py:26-27 | the text "File <path> (<type>)" can be read back as its path and type, so no two files with different paths or types print alike |
| DiffFiles.ReprTagSuffix | svndiff/diffparser.py:7-12 | a representation ends in the " (<tag>)" of its own type only, so no type tag is a suffix of another |
| DiffFiles.SuffixDeterminesType | svndiff/diffparser.py:7-12 | a closing " (<tag>)" that ends another one is that same one |
| DiffFilesExamples.GetFilesExample | svndiff/diffparser.py:39-63 | the text of the example, split into its lines, with base "http://svn/" gives two "mod" files, srm-pom/pom.xml then psfo-messagekit/pom.xml, with urls under "http://svn" |
| DiffFilesExamples.ExampleFirstRepr | svndiff/diffparser.py:63 | the first file of the example prints as "File srm-pom/pom.xml (mod)" |
| DiffFilesExamples.ExampleSecondRepr | svndiff/diffparser.py:63 | the second file of the example prints as "File psfo-messagekit/pom.xml (mod)" |
| UnifiedDiff.DiffToHdf | svndiff/diffparser.py:128-258 | the outcome is the parse as a whole, with blocks re-typed when it succeeds; None and the unbound-variable exception are outcomes of their own |
| UnifiedDiff.ReadHunks | svndiff/diffparser.py:194-208 | the loop over hunk headers ends at the first line that is not a header and hands that line to the outer loop with the file completed; otherwise it ends with the outcome of the parse |
| UnifiedDiff.ReadHunkLines | svndiff/diffparser.py:209-243 | the loop over the lines of one hunk, with a new block whenever the line type changes, ends with the outcome of the parse or hands the next line on with the group appended |
| UnifiedDiff.FeedSides | svndiff/diffparser.py:236-241 | the line is appended to each of its sides, and the counter of each side goes up by one |
| UnifiedDiff.MarkBlockTypes | svndiff/diffparser.py:249-257 | every block of every group of every file is re-typed, and nothing else changes |
| UnifiedDiff.RetypedUnique | svndiff/diffparser.py:249-257 | the re-typed result is determined by the parse |
| UnifiedDiff.IsRuleRepeat | svndiff/diffparser.py:135 | the rule line skipped among the comments is exactly 67 "=" characters |
| UnifiedDiff.SidesOf | svndiff/diffparser.py:224-235 | a line goes to the base side exactly when it is ' ', '-' or a '\\' after a '-' line, and to the changed side exactly when it is ' ', '+' or a '\\' after a '+' line; any other command, and a '\\' before any '+' or '-' line, goes nowhere and fails the parse |
| UnifiedDiffFacts.HeaderRoundTrip | svndiff/diffparser.py:196-207 | a header "@@ -a[,b] +c[,d] @@", whatever follows it, reads back as a, b, c and d, with a left-out length read as 1 |
| UnifiedDiffFacts.HeaderNeedsStart | svndiff/diffparser.py:196-199 | a line parsed as a header starts with "@@ -" and a digit |
| UnifiedDiffFacts.ParseShape | svndiff/diffparser.py:209-243 | in every group of a parse, blocks alternate between context and changes; each block starts on both sides where the one before ends; context blocks hold the same nonempty lines on both sides, and change blocks hold at least one line |
| UnifiedDiffFacts.RetypedShape | svndiff/diffparser.py:253-257 | re-typing keeps lines and offsets and keeps "unmod" blocks; "add" has only changed lines, "rem" has only base lines, "mod" has both |
| UnifiedDiffFacts.DiffToHdfShape | svndiff/diffparser.py:128-258 | every group of the result alternates between context and changes, its blocks follow each other line by line, and each block's type matches which of its sides are empty |
| UnifiedDiffFacts.NoHeadersNoFiles | svndiff/diffparser.py:133-138 | a diff without any "--- " line, the empty one included, gives the empty list of files |
| UnifiedDiffFacts.FilesWithoutHeaders | svndiff/diffparser.py:133-138 | lines without a "--- " line are only comments and add no file |
| UnifiedDiffFacts.UnpairedHeader | svndiff/diffparser.py:150-152 | a first "--- " line not followed by a "+++ " line makes the parse return None |
| UnifiedDiffFacts.FilesUnpaired | svndiff/diffparser.py:133-152 | from any point before it, the outer loop reaches an unpaired "--- " line and returns None |
| UnifiedDiffFacts.BadCommand | svndiff/diffparser.py:224-235 | a hunk line that starts with any character other than ' ', '+', '-' and '\\' makes the parse return None; a '\\' before any '+' or '-' line raises |
| UnifiedDiffHunks.HunkLineCounts | svndiff/diffparser.py:209-243 | while a counter is short of its end, the parse reads a context, removed or added line as the reference step `Step`: a new block exactly when the line's kind differs from the open block's, the text appended to the sides the command names, each of those counters up by one, '+' and '-' remembered as the side of a later '\\' line |
| UnifiedDiffHunks.HunkRun | svndiff/diffparser.py:209-243 | a run of such lines, during which a counter stays short, is read as `Step` applied to each line in order |
| UnifiedDiffHunks.RunCounters | svndiff/diffparser.py:236-240 | after a run, each counter has gone up by the number of texts its side got |
| UnifiedDiffHunks.RunShort | svndiff/diffparser.py:209 | before the end of a run of hunk lines, one counter is still short of what the whole run gives it, so the loop does not stop inside the run |
| UnifiedDiffHunks.RunBaseLines | svndiff/diffparser.py:218-241 | a run appends exactly the base-side texts of its lines, in order, after the base lines of the blocks so far: none lost, none repeated |
| UnifiedDiffHunks.RunChangedLines | svndiff/diffparser.py:218-241 | a run appends exactly the changed-side texts of its lines, in order, after the changed lines of the blocks so far |
| UnifiedDiffHunks.WholeHunk | svndiff/diffparser.py:196-243 | a header followed by context, removed and added lines whose base and changed counts are the header's lengths is read as one group, added to the file, after which the parse goes on at the next line; its base lines are the texts of the hunk's context and removed lines, and its changed lines those of its context and added lines, each in order |
| UnifiedDiffHunks.LastLine | svndiff/diffparser.py:209-245 | the last line of the input, a context, removed or added line met while a counter is short, is read as `Step`; the input then running out, the group so far is added to the file and the parse ends with the files so far |
| UnifiedDiffHunks.LastHunk | svndiff/diffparser.py:196-245 | a hunk that ends the input is kept: a header followed, up to the end, by context, removed and added lines whose base and changed counts are at most the header's lengths gives the files so far with one more group added to the file; its base lines are the texts of the hunk's context and removed lines, and its changed lines those of its context and added lines, each in order |
| TemplateValues.EvalExpr | svndiff/template.py:46-56 | the loop of eval_expr gives the value of the path in the context |
| TemplateValues.EvalName | svndiff/template.py:46-48 | a name without a dot evaluates to its entry in the context, or to None when there is none |
| TemplateValues.EvalDot | svndiff/template.py:49-54 | a path is evaluated from the left: one more part looks up an attribute on the value so far and calls it when it is a method; a None stays None |
| TemplateValues.EvalMissingFirst | svndiff/template.py:46-50 | "var.prop" in a context without var is None |
| TemplateValues.EvalUpperLower | svndiff/template.py:41-54 | "var.upper.lower" on a string s gives s lowercased |
| TemplateValues.LowerUpper | svndiff/template.py:43-44 | lowercasing the uppercased string is lowercasing it |
| TemplateValues.GetAttr | svndiff/template.py:51 | a record has exactly its members as attributes; a string has upper and lower; other values have none |
| TemplateValues.Iterate | svndiff/template.py:147 | enumerate walks the elements of a sequence, or the one-character strings of a string, and fails on anything else |
| TemplateValues.Context.Get | svndiff/template.py:48 | the entry of the name, or None when there is none |
| TemplateValues.Context.Set | svndiff/template.py:148-149 | the context binds the name to the value, and nothing else changes |
| TemplateValues.Context.Update | svndiff/template.py:145-146 | every entry of the other context is copied in, replacing entries with the same name |
| Template.Render | svndiff/template.py:128-195 | the result of render is the template rendered line by line and then stripped; errors from getattr, enumerate and the if-stack pop are results of their own; the caller's context is not modified |
| Template.RenderPasses | svndiff/template.py:145-151 | the loop body is rendered once per element, in order, each pass followed by "\n", in a copy of the context with the element and its index bound; the first failing pass ends the loop with its error |
| Template.RenderPass | svndiff/template.py:148-150 | one pass binds the loop variable and its index in the copy of the context, then renders the body there |
| Template.SubstituteExprs | svndiff/template.py:189-190 | the loop over the expressions found gives what `Substitute` gives on them: each expression in turn evaluated and replaced everywhere in the line as the earlier replacements left it, the first failing evaluation ending it with its error (what this means for a line is `TemplateExprs.SubstituteWoven`) |
| Template.Rebind | svndiff/template.py:148-149 | binding the loop variable again replaces the element and index of the pass before |
| Template.FindExprs | svndiff/template.py:22 | every expression found is "${" a path "}" |
| Template.IfSearch | svndiff/template.py:24 | a path found after "#if" is a nonempty run of letters, digits, '_' and '.' |
| Template.ForSearch | svndiff/template.py:27 | a loop variable found is a name, and a collection is a path |
| TemplateFacts.PlainText | svndiff/template.py:136-195 | a line is plain when it contains no "#endfor", the for and if patterns find nothing in it, it contains no "#endif" and findall finds no expression in it; a template of plain lines renders as those lines, each followed by "\n", stripped |
| TemplateFacts.PlainTemplate | svndiff/template.py:136-195 | a template text made of plain lines without line breaks, joined by "\n", renders as itself stripped |
| TemplateFacts.PlainRun | svndiff/template.py:192-193 | a run of plain lines outside a loop, where the innermost #if is true, adds those lines to the output |
| TemplateFacts.ExprLine | svndiff/template.py:189-195 | a line with one ${path} renders as the line with the text of the path's value in its place; an error while evaluating is the result |
| TemplateFacts.SubstituteOne | svndiff/template.py:189-190 | the one expression of a line is replaced by the text of its value, or its error is returned |
| TemplateFacts.OneLine | svndiff/template.py:189-195 | a one-line template without '#' renders as its substitution stripped, or fails with its error |
| TemplateExprs.FindWoven | svndiff/template.py:22 | in a line made of texts without '$' and expressions between them, findall finds exactly those expressions, in order, repeats included |
| TemplateExprs.ReplaceWoven | svndiff/template.py:190 | replacing an expression in such a line replaces exactly the places where that expression stands, and leaves the texts and every other expression as they are |
| TemplateExprs.SubstituteWoven | svndiff/template.py:189-190 | a line with any number of expressions, repeats included, becomes the line with each expression replaced by the text of its value, or fails with the error of the first expression whose path does not evaluate |
| TemplateExprs.ExprsLine | svndiff/template.py:136-195 | a one-line template with any number of expressions between texts without '#' and '$' renders as the line with every value's text in place, stripped, or fails with the error of the first failing path |
| TemplateExprs.ForEachExprs | svndiff/template.py:145-151 | a loop body of one such line renders, for each element in order, the line with every value's text in place as seen in that pass, one line per element |
| TemplateFacts.TrueIf | svndiff/template.py:178-186 | a true #if, plain lines and an #endif give the plain lines only, and the stack is as before |
| TemplateFacts.FalseIf | svndiff/template.py:178-186 | after a false #if, no later line reaches the output, not even after its own #endif, as long as no #for/#endfor line follows |
| TemplateFacts.FalseTopDrops | svndiff/template.py:178-179 | while the innermost #if value is false, the lines that follow add nothing to the output |
| TemplateFacts.IfLineForm | svndiff/template.py:180-182 | a line "#if", spaces, "(path)" is an #if line for that path and no loop line |
| TemplateFacts.EndIfLineForm | svndiff/template.py:184 | a line containing "#endif" and no other '#' is an #endif line and no other directive |
| TemplateFacts.ForLineForm | svndiff/template.py:163-175 | a line "#for", spaces, "(name", spaces, "in", spaces, "path)" opens a loop over that path |
| TemplateFacts.EndForLineForm | svndiff/template.py:138 | a line containing "#endfor" is an #endfor line |
| TemplateFacts.CollectBody | svndiff/template.py:138-170 | inside a loop, lines are added to the body while the depth count stays at least 1; inner #for lines raise it and inner #endfor lines lower it |
| TemplateFacts.ForBlock | svndiff/template.py:138-175 | a #for line, a body in which the depth stays open and the matching #endfor render the body once per element, or fail with the error of the evaluation or of enumerate |
| TemplateFacts.ForEachOk | svndiff/template.py:147-151 | when every pass renders, the loop adds the rendered passes in order, each followed by "\n" |
| TemplateFacts.ForEachShown | svndiff/template.py:145-151 | a body of one line with ${var} renders each element's text in order, one line per element |
| TemplateFacts.BindSees | svndiff/template.py:148-149 | in a pass, the loop variable is the element, var_index is its position, and every other name keeps its value |

## Left out

- The display-name heuristic of `_diff_to_hdf` (svndiff/diffparser.py:160-180) is left out. Each header keeps its file name, the second word, and its revision text, everything after the first word. The common prefix or suffix computation and `shortrev` are not modelled.
- The HTML conversion of the parsed lines and the intraline markup (svndiff/diffparser.py:258-273) are left out. They call `expandtabs`, `escape`, `Markup` and `_markup_intraline_change`, which are not part of this model. A same-length "mod" block is therefore left as it is.
- The Trac `render` entry point (svndiff/diffparser.py:91-106) is left out because it calls the Trac web framework.
- `_diff_to_hdf` builds dictionaries with the fixed entries `change`, `props` and `shortrev`, and with the display name as both paths. The model keeps only the comments, the revisions and the groups.
- The tab width parameter of `_diff_to_hdf` is left out. It only reaches the HTML conversion.
- Revision extraction, the classification of files as added or removed, and the building of `Change` records are not modelled, because `get_files` does none of them.
- TemplateValues.GetAttr: strings have only the attributes `upper` and `lower`, and sequences and numbers have none. Other Python attributes are not modelled, and `upper`/`lower` follow ASCII case rules.
- TemplateValues.Str: `str()` of a sequence or an object is the text carried in the value, not computed from its elements.
- TemplateValues.Truthy: every object counts as true, because the objects in the model define neither `__len__` nor `__nonzero__`.
- Template.Render: the caller's context is unchanged because `Render` has no modifies clause. The copy made for loop passes is a fresh `Context`.
- UnifiedDiffHunks.WholeHunk: the hunk's lines are context, removed and added lines only. A "\\" line in the middle of a hunk is read by the parse, but `Step` and the lemmas built on it do not cover it.
- TemplateExprs.SubstituteWoven, TemplateExprs.ExprsLine, TemplateExprs.ForEachExprs: the values' texts must hold no `$`, and so must the texts between the expressions. `replace` works on the line as the earlier replacements left it, so a value showing an expression would be replaced in its turn; the model computes that too, but the lemmas do not describe it.
- svndiff/svndiff.py, svndiff/svn.py and svndiff/scheduler.py are not part of this model. They hold configuration, file and mail I/O, subprocess calls and a polling thread.
