# auto-letter template services, modelled in Dafny

This project models the two services behind the letter generator's templates:

- `DocumentGenerator` fills in a `.docx` template. Every placeholder `{{name}}` is replaced by the value the user gave for `name`, run by run, so that each run of a paragraph keeps its styling. It also offers two read-only debugging helpers: the list of placeholders a template uses, and a preview of what filling it in would do.
- `TemplateParser` reads the placeholder names of a template and turns them into the form schema the front end shows. Each name becomes a field with a label, an input type and a hint, and the fields are grouped into sections by a first-match keyword classifier.

Files and modules:

- `wrappers.dfy` (`Wrappers`): `Option` and `Result`.
- `strings.dfy` (`Strings`): the Python string operations the services use, on ASCII: `lower`, `title`, `replace('_', ' ')`, the substring test and `sorted` on a set of strings.
- `pattern.dfy` (`Pattern`): the placeholder pattern `\{\{(\w+)\}\}` and the three regular expression operations applied to it. `re.search` is `ContainsPlaceholders`. `re.finditer` and `re.findall` are `FindAll` and `NamesIn`, a left-to-right scanner. `re.sub` is `Substitute`.
- `runs.dfy` (`Runs`): a paragraph is an `array<string>` of run texts, and its text is their concatenation. `ReplaceTextInParagraph` is the in-place span rewrite of `_replace_text_in_paragraph`.
- `docx.dfy` (`Docx`): the document tree (body paragraphs, tables of rows of cells, sections with a header and a footer) and the paragraph lists each walk visits.
- `generator.dfy` (`Generator`): `_process_paragraphs`, `_process_tables`, `_process_headers_footers` and `generate_document`, as methods that change the run arrays.
- `parser.dfy` (`Parser`): `_extract_placeholders` and `parse_template`.
- `schema.dfy` (`Schema`): `_generate_schema`, `_humanize_field`, `_infer_field_type` and `_translate_section_name`.
- `inspection.dfy` (`Inspection`): `get_template_placeholders` and `preview_replacements`.

How the model is built:

- Every loop of the source is a method with loop invariants. Each method is proved against a specification function: `Pattern.Substitute` for filling a paragraph, `Runs.NewText` for the span rewrite, `Parser.NamesOf` for the scan, `Schema.SchemaOf` for the schema and `Inspection.PreviewOf` for the preview. Lemmas then state what those functions promise.
- Loading a document is an input `Result<Docx.Document, string>`. Its `Failure` carries the exception text.

The placeholder scan visits the body paragraphs, the cells of the top-level tables, and the paragraphs of headers and footers (template_parser.py:47-71). The generator also visits the tables of headers and footers (document_generator.py:123-125, 130-132). Neither visits tables nested inside cells.

## Model

| member | source | states |
|---|---|---|
| Pattern.MatchAt | backend/app/services/document_generator.py:11 | a match of the pattern at a position starts there, captures a non-empty name of word characters and ends right after the closing braces |
| Pattern.MatchAtSpells | backend/app/services/document_generator.py:11 | a match spells out `{{name}}` over exactly its span |
| Pattern.MatchAtToken | backend/app/services/document_generator.py:11 | wherever `{{name}}` stands in a text with `name` made of word characters, the pattern matches it there with that name: the converse of `MatchAtSpells` |
| Pattern.Scan | backend/app/services/document_generator.py:43 | the matches `re.finditer` yields are non-empty, lie inside the text, and come in increasing order without overlapping |
| Pattern.ScanSound | backend/app/services/document_generator.py:43 | every match the scan reports is a match of the pattern at its start position |
| Pattern.ScanComplete | backend/app/services/document_generator.py:43 | every position where the pattern matches is the start of a reported match or lies inside one (`ScanFindsEvery` sharpens this to the start) |
| Pattern.ContainsIffFound | backend/app/services/document_generator.py:134-136 | `_contains_placeholders` (`re.search`) holds exactly when `re.finditer` finds at least one match, both directions |
| Pattern.FoundNamesAreTokens | backend/app/services/template_parser.py:49 | every name `re.findall` returns is a word of word characters that stands in the text as `{{name}}` |
| Pattern.NoNested | backend/app/services/document_generator.py:11 | no position strictly inside a match starts another match |
| Pattern.ScanFindsEvery | backend/app/services/document_generator.py:43 | the scan misses no match: every match of the pattern in the text is reported, with its name and span |
| Pattern.TokenFound | backend/app/services/template_parser.py:49 | wherever `{{name}}` stands in the text with `name` made of word characters, `re.findall` returns `name` |
| Pattern.NamesInIff | backend/app/services/template_parser.py:49 | `re.findall` returns a name exactly when the name is made of word characters and stands in the text as `{{name}}`, both directions |
| Pattern.ScanAfter | backend/app/services/document_generator.py:43 | the scan resumed after the end of a match finds exactly the matches after it |
| Pattern.UnresolvedIsIdentity | backend/app/services/document_generator.py:50 | when no matched name is in the mapping, substitution with the `{{name}}` fallback gives the text back unchanged |
| Pattern.EmptyMappingIsIdentity | backend/app/services/document_generator.py:50 | with an empty mapping, generation leaves every paragraph's text as it was (a placeholder split across runs is still rewritten into its first run) |
| Pattern.PreviewAgreesWhenResolved | backend/app/services/document_generator.py:191-195 | when every matched name is in the mapping, the preview's substitution and the generator's agree |
| Pattern.MissingNameFallbacks | backend/app/services/document_generator.py:50 | a lone placeholder whose name is missing stays `{{name}}` in generation and becomes `{{ name }}` in the preview (line 193) |
| Runs.AffectedBounds | backend/app/services/document_generator.py:74-88 | the runs that overlap a span are consecutive; the span starts inside the first of them and ends inside the last, so both cut positions fall within those runs |
| Runs.RewriteSplices | backend/app/services/document_generator.py:56-108 | for a non-empty span inside the text, the run-by-run rewrite makes the joined run text equal to the old text before the span, then the replacement, then the old text after the span |
| Runs.NewTextOutside | backend/app/services/document_generator.py:74-77 | a run whose interval does not overlap the span keeps its text |
| Runs.OneRunAffected | backend/app/services/document_generator.py:93-97 | when the span overlaps exactly one run, the span lies inside it, that run becomes its text before the span, the replacement and its text after the span, and every other run is unchanged |
| Runs.SeveralRunsAffected | backend/app/services/document_generator.py:98-108 | when the span overlaps several runs: the first becomes its prefix plus the replacement; the runs between become empty; the last keeps its text after the span; runs outside are unchanged; the overlapping runs are exactly those from the first to the last |
| Runs.NoneAffected | backend/app/services/document_generator.py:79-80 | when no run overlaps the span, every run keeps its text |
| Runs.SpanHasRun | backend/app/services/document_generator.py:79-80 | a non-empty span inside the text always overlaps some run, so the early return happens only for empty spans |
| Runs.CollectRunsInfo | backend/app/services/document_generator.py:59-71 | the `runs_info` loop gives one entry per run, holding the run's index, its start and end offsets in the joined text, and its text |
| Runs.SelectAffected | backend/app/services/document_generator.py:74-77 | the `affected_runs` loop keeps exactly the entries whose interval overlaps the span, in run order |
| Runs.RewriteBlock | backend/app/services/document_generator.py:93-108 | the writes to the affected runs: each run becomes its block rewrite and the others are untouched |
| Runs.SelectedBlock | backend/app/services/document_generator.py:83-88 | the selected entries are those of the consecutive block from the first to the last affected run, and the cut positions lie inside their texts |
| Runs.BlockRewriteIsNewText | backend/app/services/document_generator.py:93-108 | the block rewrite leaves each run with its specified new text, and for a non-empty span it splices the joined text |
| Runs.ReplaceTextInParagraph | backend/app/services/document_generator.py:56-108 | the array keeps its length; each run gets its specified new text (unchanged outside the span, see `NewTextOutside`); for a non-empty span the joined text is the old text with the span replaced |
| Runs.RewriteSelected | backend/app/services/document_generator.py:82-108 | the rewrite once the affected entries are selected: the same new run texts and the same splice equation |
| Generator.FillOneMore | backend/app/services/document_generator.py:47-54 | replacing match `j - 1` inside the partly filled text fills one more match: the text to the left of a match is not changed by the replacements to its right |
| Generator.ReplaceMatch | backend/app/services/document_generator.py:49-54 | one iteration of the reversed loop takes the paragraph from the matches from `j` on filled to the matches from `j - 1` on filled |
| Generator.ReplaceFromRight | backend/app/services/document_generator.py:47-54 | replacing the matches from the last to the first leaves the paragraph text equal to the left-to-right splice of every match, the `re.sub` result |
| Generator.ProcessParagraph | backend/app/services/document_generator.py:36-54 | a processed paragraph's text is the template text with every match substituted (a missing name kept as `{{name}}`); a paragraph without a placeholder keeps every run as it was |
| Generator.ProcessParagraphs | backend/app/services/document_generator.py:34-54 | every listed paragraph is filled from its own old runs, whatever order they are processed in |
| Generator.ProcessCells | backend/app/services/document_generator.py:114-115 | every paragraph of every cell of a row is filled |
| Generator.ProcessRows | backend/app/services/document_generator.py:113-115 | every paragraph of every cell of every row of a table is filled |
| Generator.ProcessTables | backend/app/services/document_generator.py:110-115 | every paragraph of every cell of every row of every listed table is filled |
| Generator.ProcessPart | backend/app/services/document_generator.py:121-125 | a header's or footer's paragraphs and the paragraphs of its tables are filled |
| Generator.ProcessHeadersFooters | backend/app/services/document_generator.py:117-132 | every paragraph of every section's header and footer, tables included, is filled |
| Generator.GenerateDocument | backend/app/services/document_generator.py:13-22 | every paragraph of the body, of the top-level table cells and of the headers and footers is filled |
| Docx.ScannedAreGenerated | backend/app/services/template_parser.py:47-71 | every paragraph the scanner reads is one the generator fills in, so every name the schema asks for can be substituted |
| Parser.NamesOfMembers | backend/app/services/template_parser.py:47-71 | a name is gathered exactly when the pattern finds it in one of the listed paragraphs |
| Parser.NamesOfAppend | backend/app/services/template_parser.py:45-71 | gathering from two lists one after the other gathers the union of their names |
| Parser.GatherNames | backend/app/services/template_parser.py:48-50 | `placeholders.update(re.findall(...))` over a paragraph list adds exactly the names found in those paragraphs |
| Parser.GatherCells | backend/app/services/template_parser.py:55-58 | the loop over a row's cells adds the names of all their paragraphs |
| Parser.GatherRows | backend/app/services/template_parser.py:54-58 | the loop over a table's rows adds the names of all their cells' paragraphs |
| Parser.GatherTables | backend/app/services/template_parser.py:53-58 | the loop over the top-level tables adds the names of all their cell paragraphs |
| Parser.GatherSections | backend/app/services/template_parser.py:61-71 | the loop over the sections adds the names of their header and footer paragraphs, not those of header or footer tables |
| Parser.ExtractPlaceholders | backend/app/services/template_parser.py:43-73 | the result is strictly sorted (so it has no duplicates), and a name is in it exactly when the pattern finds it in a body, top-level cell, header or footer paragraph |
| Parser.ParseTemplate | backend/app/services/template_parser.py:21-41 | on a loading failure: `success` false, the error text, no placeholders, no sections, count 0; otherwise `success`, no error, the sorted placeholders, the schema of `_generate_schema` and `field_count` equal to their number |
| Strings.SortNames | backend/app/services/template_parser.py:73 | `sorted(list(names))`: strictly increasing, holds exactly the names of the set, one entry per name |
| Strings.SortedUnique | backend/app/services/template_parser.py:73 | two strictly sorted lists with the same elements are equal, so the sorted list of a set is unique |
| Strings.LessTransitive | backend/app/services/template_parser.py:73 | Python's string order is transitive |
| Strings.LessTotal | backend/app/services/template_parser.py:73 | any two different strings are ordered one way or the other |
| Strings.Insert | backend/app/services/template_parser.py:73 | inserting a new name keeps a strictly sorted list strictly sorted and adds exactly that name |
| Strings.ContainsAnyIff | backend/app/services/template_parser.py:91 | `any(keyword in name for keyword in keywords)` holds exactly when one of the keywords occurs in the name |
| Strings.Contains | backend/app/services/template_parser.py:91 | `w in s` holds exactly when `w` occurs in `s` at some position |
| Strings.TitleAt | backend/app/services/template_parser.py:150 | `str.title` upper-cases the first letter of each word and lowers every other letter |
| Strings.TitleOfSpacedAt | backend/app/services/template_parser.py:150 | `replace('_', ' ').title()` character by character: an underscore becomes a space and starts a word |
| Schema.Humanize | backend/app/services/template_parser.py:131-150 | a name whose lowered form is a known abbreviation gets the fixed label; any other name gets a label of its own length |
| Schema.HumanizeChars | backend/app/services/template_parser.py:149-150 | outside the abbreviations the label is the name with underscores as spaces, the first letter of each word upper-cased and the rest lowered |
| Schema.HumanizeNoUnderscore | backend/app/services/template_parser.py:149-150 | labels built from snake_case names hold no underscore |
| Schema.InferFieldType | backend/app/services/template_parser.py:152-167 | the type is always one of date, email, text, textarea, tel |
| Schema.InferFieldTypeIgnoresCase | backend/app/services/template_parser.py:154 | the type depends on the name only up to case |
| Schema.DateWins | backend/app/services/template_parser.py:156-157 | a name containing `tanggal` or `date`, in any case, is a date field whatever else it contains |
| Schema.NumberBeatsTitle | backend/app/services/template_parser.py:160-163 | a number keyword beats a long-text keyword: with no date or email keyword, a name holding `nomor` or `number` is a one-line text field |
| Schema.TranslateSectionName | backend/app/services/template_parser.py:169-179 | a known section name gets its fixed Indonesian title; any other name is title-cased to the same length |
| Schema.GroupsAreTranslated | backend/app/services/template_parser.py:12-19 | every group of the keyword table has a fixed title |
| Schema.MakeField | backend/app/services/template_parser.py:92-98 | the field keeps its name, is required, and its hint is `Masukkan ` + lowered label + `...` |
| Schema.FirstGroup | backend/app/services/template_parser.py:81-91 | the group a name goes to matches it, and no earlier group does; with no group, no group of the table matches |
| Schema.OtherNeverMatches | backend/app/services/template_parser.py:18 | the `other` group has no keywords and claims no name |
| Schema.ClaimGroup | backend/app/services/template_parser.py:85-100 | one group's pass produces the fields of the names that group claims first, in input order, each once, and grows `used_fields` to the names claimed by this or an earlier group |
| Schema.GroupPasses | backend/app/services/template_parser.py:77-107 | the first pass gives the specified group sections, and `used_fields` holds exactly the inputs some group claims |
| Schema.OtherFields | backend/app/services/template_parser.py:110-120 | the second pass gives a field for every input no group claims, in input order |
| Schema.GenerateSchema | backend/app/services/template_parser.py:75-129 | `_generate_schema` returns the specified schema `SchemaOf` |
| Schema.Partition | backend/app/services/template_parser.py:78-127 | a name is a field of a section exactly when it is an input and the section is its first matching group's (or `other`), and every input has such a section |
| Schema.SectionNameIsFirstMatch | backend/app/services/template_parser.py:12-19 | a name's section is the first group, in the order header, recipient, personal, content, signature, that matches it; `other` when none does |
| Schema.SectionsInOrder | backend/app/services/template_parser.py:81-127 | the sections come in table order with `other` last, so no two share a name |
| Schema.SectionsAndFields | backend/app/services/template_parser.py:92-127 | no section is empty (line 102), and every field is required with the hint built from its label |
| Schema.ClaimedMembers | backend/app/services/template_parser.py:86-100 | a group's section holds a name exactly when the name is an input sent to that group |
| Schema.UnclaimedMembers | backend/app/services/template_parser.py:110-120 | the `other` section holds a name exactly when the name is an input no group claims |
| Schema.SchemaSections | backend/app/services/template_parser.py:102-127 | the schema lists the sections of the groups that claim names, then `other` exactly when some name is unclaimed |
| Schema.SectionGroupsIncreasing | backend/app/services/template_parser.py:81 | the groups that get a section come in table order |
| Schema.SectionGroupsComplete | backend/app/services/template_parser.py:102-107 | every group that claims a name gets a section |
| Schema.GroupNamesDistinct | backend/app/services/template_parser.py:12-19 | the groups of the table have pairwise different names |
| Inspection.GetTemplatePlaceholders | backend/app/services/document_generator.py:138-178 | on success, the sorted names of the same paragraphs `_extract_placeholders` scans; on a loading failure, `[]` |
| Inspection.PlaceholderListsAgree | backend/app/services/document_generator.py:172 | the two services' placeholder lists for one document are equal |
| Inspection.LocationAt | backend/app/services/document_generator.py:187-207 | every location the preview records designates the paragraph previewed at that point |
| Inspection.PreviewsMembers | backend/app/services/document_generator.py:187-201 | a line is in the preview of a paragraph list exactly when some paragraph has a placeholder and the line holds its location, its text and the text with every placeholder filled (missing names shown as `{{ name }}`) |
| Inspection.PreviewSound | backend/app/services/document_generator.py:180-223 | every preview line names a body or top-level cell paragraph that has a placeholder, with its text and its text substituted |
| Inspection.PreviewCoversBody | backend/app/services/document_generator.py:187-201 | every body paragraph with a placeholder has its line, of type paragraph with its index |
| Inspection.PreviewCoversCells | backend/app/services/document_generator.py:204-223 | every top-level table cell paragraph with a placeholder has its line, with its table, row, cell and paragraph indices |
| Inspection.PreviewsAppend | backend/app/services/document_generator.py:184-223 | previewing two lists one after the other previews their concatenation |
| Inspection.PreviewParagraphs | backend/app/services/document_generator.py:187-201 | the loop over enumerated paragraphs appends exactly their preview lines |
| Inspection.PreviewCells | backend/app/services/document_generator.py:206-223 | the loop over a row's cells appends the preview lines of their paragraphs |
| Inspection.PreviewRows | backend/app/services/document_generator.py:205-223 | the loop over a table's rows appends the preview lines of their cells |
| Inspection.PreviewTables | backend/app/services/document_generator.py:204-223 | the loop over the top-level tables appends the preview lines of their cells |
| Inspection.PreviewReplacements | backend/app/services/document_generator.py:180-237 | on success, the preview lines of the body and then of the top-level cells, with `total_replacements` equal to their number; on failure, `success` false, the error, no lines and total 0 |

## Left out

- Loading and saving documents (`Document(path)`, the temporary file and `doc.save`) is file I/O. A loaded document is an input `Result`, and `generate_document`'s returned path and its re-raised exception are not modelled.
- The debug `print` calls of `get_template_placeholders` produce no result.
- Python's Unicode semantics for `\w`, `str.lower` and `str.title` are not modelled. Word characters and cased letters are ASCII only.
- `paragraph.text` is modelled as the concatenation of the paragraph's run texts. In python-docx, text inside hyperlinks is part of `paragraph.text` but not of `paragraph.runs`. Such paragraphs are not modelled.
- Run styling is not modelled: each run is its text, so keeping a run in its array position stands for keeping its formatting.
- Generator.ProcessCells: requires the paragraphs of the row's cells to be pairwise distinct objects. python-docx lists a merged cell once per grid column it spans, so its paragraphs would be processed more than once, and that repeated pass is not modelled.
- Generator.ProcessRows: requires distinct paragraphs across the table's rows. A cell merged across rows would be processed once per row, and that repeated pass is not modelled.
- Generator.ProcessTables: requires distinct paragraphs across the tables. Tables with merged cells are excluded for the same reason as in `ProcessCells`.
- Generator.ProcessPart: requires distinct paragraphs in a header or footer and its tables. Merged cells in those tables are excluded for the same reason as in `ProcessCells`.
- Generator.ProcessHeadersFooters: requires distinct paragraphs across all headers and footers. Sections whose headers or footers are linked to the previous section share one part, so its paragraphs would be processed once per section, and that repeated pass is not modelled.
- Generator.GenerateDocument: requires the paragraphs it visits to be pairwise distinct objects. python-docx can hand out the same merged cell more than once from `row.cells`, and sections can share a linked header. Such a paragraph would be processed twice, and that second pass is not modelled.
- Runs.ReplaceTextInParagraph: requires `0 <= start <= end <= len(text)`. Its only caller passes the span of a match, which always satisfies this. Python's negative and out-of-range slice indices are not modelled.
- Cells are modelled without nested tables (`Docx.Cell` holds only paragraphs), because neither the scan, the fill nor the preview reads tables inside cells.
- `if section.header` / `if section.footer` is always true in python-docx (a missing header is an empty, linked one), so every section has both parts.
- `str(value)` of non-string values is not modelled: the user data is a mapping from names to strings.
- `get_template_placeholders` repeats `_extract_placeholders` line for line, so it is modelled by a call to `Parser.ExtractPlaceholders`. Its exception fallback `[]` is the `Failure` case.
- The preview lines are `Replacement` values: the `type` key is the `Location` constructor, and the index keys are its fields.
