# File icons of a directory listing

This project models, in Dafny, how a directory-listing tool chooses the icon
shown in front of a file name and how it colours it (`src/output/icons.rs`).

- **Resolution** (`icon`) is a total, first-match decision. A directory gets
  the directory glyph U+F07C. Otherwise a pluggable classifier (the
  `FileIcon` capability) may answer. Otherwise a file with an extension is
  looked up in a fixed extension table, and a file without one in a fixed,
  case-sensitive exact-name table. Both tables answer the generic glyph
  U+F15B for keys they do not list.
- **Categories** (`Icons`, `Icons::value`): seven broad file kinds, each with
  its own glyph. A classifier that works by category answers with these.
- **Painting** (`painted_icon`) paints the glyph in a style derived from the
  colour decision for the file, then appends one unstyled space. An
  underlined decision is reduced to its foreground colour, so icons are never
  underlined.

Layout:

- `options.dfy`: module `Options`, the `Option` type.
- `ansi.dfy`: module `Ansi`, an abstract view of the terminal-styling library.
  It holds colours, styles, the plain style, a style made from one colour,
  painted pieces of text, and the text a terminal shows for them.
- `icons.dfy`: module `Icons`, the categories, the two tables, the resolver,
  a reference definition of resolution as an ordered list of layers, and the
  painter.

Each arm of the source's `match` on the extension or the name becomes one
`if` arm, in the source's order. A multi-pattern arm becomes a disjunction of
equalities. `IsExtensionKey` and `IsNameKey` list the keys of each table.
They are the tables' domains, against which the fallback rule is stated.

`FileIcon::icon_file` (`src/output/icons.rs:6-8`) returns an optional glyph,
not a category, so the classifier is a function to `Option<char>`.
`ByCategory` builds one from a category-valued function.

## Model

| member | source | states |
|---|---|---|
| `Icons.Category.Value` | src/output/icons.rs:10-31 | each category's glyph reads back as that category, and no category glyph is the directory glyph, the fallback or a space |
| `Icons.ValueInjective` | src/output/icons.rs:21-31 | two categories have the same glyph exactly when they are the same category |
| `Icons.CategoryOfGlyphSound` | src/output/icons.rs:21-31 | a glyph that reads back as a category is that category's glyph |
| `Icons.ByCategory` | src/output/icons.rs:6-31 | a category classifier answers exactly for the files whose category it knows, and its glyph reads back as that category |
| `Icons.ExtensionIcon` | src/output/icons.rs:59-136 | the extension match, arm by arm in the source's order; every extension it does not list gets the fallback U+F15B |
| `Icons.NameIcon` | src/output/icons.rs:137-148 | the exact-name match, arm by arm in the source's order; the result is the fallback U+F15B exactly for names it does not list |
| `Icons.ListedExtensionGlyph` | src/output/icons.rs:60-134 | every listed extension gets a glyph other than the fallback, a space and the directory glyph |
| `Icons.UnlistedExtensionFallsBack` | src/output/icons.rs:135 | every extension the table does not list gets the fallback U+F15B |
| `Icons.ExtensionFallbackIffUnlisted` | src/output/icons.rs:59-136 | the extension table answers the fallback exactly for unlisted extensions, and never a space or the directory glyph |
| `Icons.ListedNameGlyph` | src/output/icons.rs:138-146 | every listed name gets a glyph other than the fallback, a space and the directory glyph |
| `Icons.UnlistedNameFallsBack` | src/output/icons.rs:147 | every name the table does not list gets the fallback U+F15B |
| `Icons.NameFallbackIffUnlisted` | src/output/icons.rs:137-148 | the name table answers the fallback exactly for unlisted names, and never a space or the directory glyph |
| `Icons.Icon` | src/output/icons.rs:53-150 | the resolved glyph is a space only if the classifier answered a space for a non-directory, and is the directory glyph only for a directory or when the classifier answered it |
| `Icons.FirstAnswer` | src/output/icons.rs:55-149 | first-match-wins over ordered rules: no answer exactly when no rule answers; otherwise the answer of some rule before which none answers |
| `Icons.FirstAnswerAt` | src/output/icons.rs:55-149 | a rule that answers decides the result when no earlier rule answers |
| `Icons.Layers` | src/output/icons.rs:55-149 | the four rules in order: the first gives every directory U+F07C, the second is the classifier, and the last answers for every file |
| `Icons.IconIsFirstAnswer` | src/output/icons.rs:53-150 | the resolver equals the first answer of the rules directory, classifier, extension table, name table, and some rule always answers (resolution is total) |
| `Icons.DirectoryAlwaysWins` | src/output/icons.rs:55-56 | a directory gets U+F07C whatever the classifier, extension or name |
| `Icons.ClassifierShadowsTables` | src/output/icons.rs:57-58 | for a non-directory the classifier's answer is the glyph, whatever the extension and name |
| `Icons.ExtensionShadowsName` | src/output/icons.rs:59-60 | with an extension and a declining classifier the name plays no part, and an unlisted extension gives the fallback even for a listed name |
| `Icons.UnknownNameFallsBack` | src/output/icons.rs:137-148 | with no extension and a declining classifier the glyph is the fallback exactly when the name is not in the name table |
| `Icons.CategoryGlyphShown` | src/output/icons.rs:57-58 | with a category classifier a recognised non-directory shows its category's glyph, which reads back as that category |
| `Icons.ExtensionGlyphOfRs` | src/output/icons.rs:114 | "rs" gives U+E7A8 |
| `Icons.PythonExtensionsShareGlyph` | src/output/icons.rs:110 | each of "py", "pyc", "pyo" and "pyd" gives U+E606: every key of the Python arm gives U+E606 |
| `Icons.MarkdownExtensionsShareGlyph` | src/output/icons.rs:102 | each of "md", "markdown", "mdx" and "rmd" gives U+E609: every key of the Markdown arm gives U+E609 |
| `Icons.JsonAndAvroShareGlyph` | src/output/icons.rs:64-95 | "json" and "avro", on two different arms, give the same glyph U+E60B |
| `Icons.UpperCaseExtensionFallsBack` | src/output/icons.rs:135 | extensions are compared exactly: "RS" gives the fallback |
| `Icons.DockerfileNameIsCaseSensitive` | src/output/icons.rs:140 | "Dockerfile" and "dockerfile" give U+F308, "DOCKERFILE" gives the fallback |
| `Icons.VimrcNames` | src/output/icons.rs:143 | ".vimrc" and "vimrc" give U+E7C5 |
| `Icons.BashrcNeedsItsDot` | src/output/icons.rs:145 | ".bashrc" gives U+E795 and "bashrc" gives the fallback |
| `Icons.IconStyle` | src/output/icons.rs:39-49 | the icon is never underlined and keeps the decision's foreground; without a decision it is plain; a non-underlined decision applies unchanged; an underlined one keeps nothing but its foreground |
| `Icons.IconStyleIdempotent` | src/output/icons.rs:39-49 | reducing the icon's own style again changes nothing |
| `Icons.UnderlinedRedIcon` | src/output/icons.rs:41-43 | an underlined, bold, red decision paints the icon red with no other attribute |
| `Icons.PaintedIcon` | src/output/icons.rs:34-51 | two pieces: the glyph in exactly the icon style of `IconStyle` (so an underlined decision keeps only its foreground), then an unstyled space; the shown text is the glyph then one space; the glyph keeps the decision's foreground, and its whole style when not underlined; nothing is underlined; with no decision nothing is styled |
| `Icons.OneTrailingSpace` | src/output/icons.rs:50 | two characters are shown, and the first is a space exactly when the classifier answered a space for a non-directory |
| `Ansi.FromColour` | src/output/icons.rs:43 | the style made from a colour has that foreground and no other colour or attribute |
| `Ansi.Text` | src/output/icons.rs:50 | the shown text is at least as long as any piece's text, and empty exactly when every piece's text is empty |
| `Ansi.TextAppend` | src/output/icons.rs:50 | appending painted text after painted text shows the two texts one after the other |

## Left out

- The body of the extension-category classifier (`FileExtensions`, from `info::filetype`) is not part of this model. The classifier is a function parameter.
- How a file's directory flag and extension are computed is not part of this model. It needs file-system metadata. Both are inputs. Whether a hidden file such as `.bashrc` carries an extension decides whether the name table is ever reached for it. That derivation is outside this model.
- The colour policy (`FileStyle`, `colour_file`) is not part of this model. Its decision for the file is an input of type `Option<Style>`.
- The terminal-styling library's rendering to escape bytes is not modelled. A painted string is a list of (style, text) pieces. The library writes nothing around text in the plain style, so the unstyled glyph and the glyph painted in the default style are the same piece.
- The `Box::new` allocation of the classifier carries no behaviour and is not modelled.
- Painting twice with the same inputs gives the same output because every member is a function. No lemma states this.
