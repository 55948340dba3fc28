/**
 * The file-icon chooser of a directory listing: which glyph is shown in front
 * of a file name (`icon`), and how that glyph is coloured and followed by a
 * separating space (`painted_icon`).
 *
 * Resolution is a first-match decision over a directory flag, a pluggable
 * category classifier, an extension table and an exact-name table; every file
 * gets a glyph, unmatched ones the generic fallback.
 */
module Icons {
  import opened Options
  import opened Ansi

  // ---------------------------------------------------------------------------
  // Glyphs and categories
  // ---------------------------------------------------------------------------

  /** The glyph of every directory. */
  const DirectoryGlyph: char := '\U{f07c}'

  /** The generic glyph of a file that no rule recognises. */
  const FallbackGlyph: char := '\U{f15b}'

  /** The closed set of broad file categories a classifier may recognise (the `Icons` enum). */
  datatype Category = Archive | Audio | Binary | Crypto | Image | Temp | Video
  {
    /** The fixed glyph of a category (`Icons::value`). */
    function Value(): (g: char)
      ensures CategoryOfGlyph(g) == Some(this)
      ensures g != DirectoryGlyph && g != FallbackGlyph && g != ' '
    {
      match this
      case Archive => '\U{f1c6}'
      case Audio => '\U{f001}'
      case Binary => '\U{f471}'
      case Crypto => '\U{e60a}'
      case Image => '\U{f1c5}'
      case Temp => '\U{f56a}'
      case Video => '\U{f03d}'
    }
  }

  /** Reads a category glyph back: the inverse of `Value` on its range, `None` elsewhere. */
  function CategoryOfGlyph(g: char): Option<Category>
  {
    if g == '\U{f1c6}' then Some(Archive)
    else if g == '\U{f001}' then Some(Audio)
    else if g == '\U{f471}' then Some(Binary)
    else if g == '\U{e60a}' then Some(Crypto)
    else if g == '\U{f1c5}' then Some(Image)
    else if g == '\U{f56a}' then Some(Temp)
    else if g == '\U{f03d}' then Some(Video)
    else None
  }

  /** Distinct categories have distinct glyphs. */
  lemma ValueInjective(a: Category, b: Category)
    ensures a.Value() == b.Value() <==> a == b
  {
  }

  /** A glyph that reads back as a category is that category's glyph. */
  lemma CategoryOfGlyphSound(g: char, k: Category)
    requires CategoryOfGlyph(g) == Some(k)
    ensures k.Value() == g
  {
  }

  // ---------------------------------------------------------------------------
  // Files and classifiers
  // ---------------------------------------------------------------------------

  /**
   * What the resolver sees of a file: whether it is a directory, its
   * extension (already lower-cased, without the dot; absent when the name has
   * none) and its exact name.
   */
  datatype File = File(isDirectory: bool, ext: Option<string>, name: string)

  /** A pluggable classifier (the `FileIcon` capability): a glyph for the files it recognises. */
  type Classifier = File -> Option<char>

  /** The classifier that recognises files by category and answers with the category's glyph. */
  function ByCategory(kind: File -> Option<Category>): (classify: Classifier)
    ensures forall f :: classify(f).None? <==> kind(f).None?
    ensures forall f :: classify(f).Some? ==> CategoryOfGlyph(classify(f).value) == kind(f)
  {
    (f: File) => if kind(f).Some? then Some(kind(f).value.Value()) else None
  }

  // ---------------------------------------------------------------------------
  // The two fixed tables
  // ---------------------------------------------------------------------------

  /**
   * The extension table: one `if` per arm of the source's match, in the
   * source's order, the patterns of a multi-key arm joined by `||`; any other
   * extension gets the fallback glyph.
   */
  function ExtensionIcon(ext: string): (g: char)
    ensures !IsExtensionKey(ext) ==> g == FallbackGlyph
  {
    if ext == "ai" then '\U{e7b4}'
    else if ext == "android" then '\U{e70e}'
    else if ext == "apple" then '\U{f179}'
    else if ext == "avro" then '\U{e60b}'
    else if ext == "c" then '\U{e61e}'
    else if ext == "clj" then '\U{e768}'
    else if ext == "coffee" then '\U{f0f4}'
    else if ext == "conf" || ext == "toml" || ext == "ini" then '\U{e615}'
    else if ext == "cmake" then '\U{e20f}'
    else if ext == "cpp" || ext == "cc" || ext == "cxx" then '\U{e61d}'
    else if ext == "cs" || ext == "csx" then '\U{f81a}'
    else if ext == "css" then '\U{e749}'
    else if ext == "d" then '\U{e7af}'
    else if ext == "dart" then '\U{e798}'
    else if ext == "db" || ext == "sql" || ext == "dump" then '\U{f1c0}'
    else if ext == "desktop" then '\U{f108}'
    else if ext == "diff" then '\U{f440}'
    else if ext == "doc" then '\U{f1c2}'
    else if ext == "ebook" then '\U{e28b}'
    else if ext == "env" then '\U{f462}'
    else if ext == "epub" then '\U{e28a}'
    else if ext == "erl" then '\U{e7b1}'
    else if ext == "ex" || ext == "exs" then '\U{e62d}'
    else if ext == "fs" || ext == "fsx" then '\U{e7a7}'
    else if ext == "font" then '\U{f031}'
    else if ext == "gform" then '\U{f298}'
    else if ext == "git" then '\U{f1d3}'
    else if ext == "go" then '\U{e626}'
    else if ext == "h" || ext == "hpp" || ext == "hh" || ext == "hxx" then '\U{f0fd}'
    else if ext == "hs" || ext == "cabal" then '\U{e777}'
    else if ext == "htm" || ext == "html" then '\U{f13b}'
    else if ext == "iml" then '\U{e7b5}'
    else if ext == "java" then '\U{e204}'
    else if ext == "js" then '\U{e74e}'
    else if ext == "json" then '\U{e60b}'
    else if ext == "jsx" then '\U{e7ba}'
    else if ext == "less" then '\U{e758}'
    else if ext == "lib" || ext == "rlib" || ext == "so" then '\U{f02d}'
    else if ext == "lock" then '\U{f456}'
    else if ext == "log" then '\U{f18d}'
    else if ext == "lua" then '\U{e620}'
    else if ext == "md" || ext == "markdown" || ext == "mdx" || ext == "rmd" then '\U{e609}'
    else if ext == "mustache" || ext == "hbs" then '\U{e60f}'
    else if ext == "npmignore" then '\U{e71e}'
    else if ext == "pdf" then '\U{f1c1}'
    else if ext == "php" then '\U{e73d}'
    else if ext == "pl" then '\U{e769}'
    else if ext == "ppt" then '\U{f1c4}'
    else if ext == "psd" then '\U{e7b8}'
    else if ext == "py" || ext == "pyc" || ext == "pyo" || ext == "pyd" then '\U{e606}'
    else if ext == "r" then '\U{f25d}'
    else if ext == "rb" then '\U{e21e}'
    else if ext == "rdb" then '\U{e76d}'
    else if ext == "rs" then '\U{e7a8}'
    else if ext == "rss" then '\U{f09e}'
    else if ext == "rubydoc" then '\U{e73b}'
    else if ext == "sass" || ext == "scss" then '\U{e603}'
    else if ext == "scala" then '\U{e737}'
    else if ext == "shell" || ext == "sh" || ext == "bat" || ext == "bash" || ext == "bashrc"
         || ext == "zsh" then '\U{f489}'
    else if ext == "sln" || ext == "suo" then '\U{fb0f}'
    else if ext == "sqlite3" then '\U{e7c4}'
    else if ext == "styl" then '\U{e600}'
    else if ext == "svg" then '\U{fc1f}'
    else if ext == "swift" then '\U{fbe3}'
    else if ext == "tex" then '\U{e600}'
    else if ext == "ttf" || ext == "otf" then '\U{fbd4}'
    else if ext == "ts" || ext == "tsx" then '\U{e628}'
    else if ext == "twig" then '\U{e61c}'
    else if ext == "txt" then '\U{f15c}'
    else if ext == "video" then '\U{f03d}'
    else if ext == "vim" || ext == "vimrc" || ext == "nvim" then '\U{e62b}'
    else if ext == "xls" then '\U{f1c3}'
    else if ext == "xml" then '\U{fabf}'
    else if ext == "yml" || ext == "yaml" then '\U{f481}'
    else FallbackGlyph
  }

  /** The extensions the extension table lists. */
  predicate IsExtensionKey(ext: string)
  {
    ext == "ai" || ext == "android" || ext == "apple" || ext == "avro" || ext == "c"
    || ext == "clj" || ext == "coffee" || ext == "conf" || ext == "toml" || ext == "ini"
    || ext == "cmake" || ext == "cpp" || ext == "cc" || ext == "cxx" || ext == "cs"
    || ext == "csx" || ext == "css" || ext == "d" || ext == "dart" || ext == "db"
    || ext == "sql" || ext == "dump" || ext == "desktop" || ext == "diff" || ext == "doc"
    || ext == "ebook" || ext == "env" || ext == "epub" || ext == "erl" || ext == "ex"
    || ext == "exs" || ext == "fs" || ext == "fsx" || ext == "font" || ext == "gform"
    || ext == "git" || ext == "go" || ext == "h" || ext == "hpp" || ext == "hh" || ext == "hxx"
    || ext == "hs" || ext == "cabal" || ext == "htm" || ext == "html" || ext == "iml"
    || ext == "java" || ext == "js" || ext == "json" || ext == "jsx" || ext == "less"
    || ext == "lib" || ext == "rlib" || ext == "so" || ext == "lock" || ext == "log"
    || ext == "lua" || ext == "md" || ext == "markdown" || ext == "mdx" || ext == "rmd"
    || ext == "mustache" || ext == "hbs" || ext == "npmignore" || ext == "pdf" || ext == "php"
    || ext == "pl" || ext == "ppt" || ext == "psd" || ext == "py" || ext == "pyc"
    || ext == "pyo" || ext == "pyd" || ext == "r" || ext == "rb" || ext == "rdb" || ext == "rs"
    || ext == "rss" || ext == "rubydoc" || ext == "sass" || ext == "scss" || ext == "scala"
    || ext == "shell" || ext == "sh" || ext == "bat" || ext == "bash" || ext == "bashrc"
    || ext == "zsh" || ext == "sln" || ext == "suo" || ext == "sqlite3" || ext == "styl"
    || ext == "svg" || ext == "swift" || ext == "tex" || ext == "ttf" || ext == "otf"
    || ext == "ts" || ext == "tsx" || ext == "twig" || ext == "txt" || ext == "video"
    || ext == "vim" || ext == "vimrc" || ext == "nvim" || ext == "xls" || ext == "xml"
    || ext == "yml" || ext == "yaml"
  }

  /**
   * The exact-name table, consulted only for files without an extension;
   * matching is exact and case-sensitive, and any other name gets the
   * fallback glyph.
   */
  function NameIcon(name: string): (g: char)
    ensures g == FallbackGlyph <==> !IsNameKey(name)
  {
    if name == "LICENSE" || name == "LICENCE" || name == "license" then '\U{f1f9}'
    else if name == "Dockerfile" || name == "dockerfile" then '\U{f308}'
    else if name == "Godeps" then '\U{e626}'
    else if name == "Makefile" then '\U{e20f}'
    else if name == "vimrc" || name == ".vimrc" then '\U{e7c5}'
    else if name == "Vagrantfile" then '\U{f2b8}'
    else if name == ".zshrc" || name == ".bashrc" || name == "terminalrc" then '\U{e795}'
    else if name == ".gitconfig" || name == ".gitignore" || name == ".gitmodules" then '\U{e702}'
    else FallbackGlyph
  }

  /** The names the exact-name table lists. */
  predicate IsNameKey(name: string)
  {
    name == "LICENSE" || name == "LICENCE" || name == "license" || name == "Dockerfile"
    || name == "dockerfile" || name == "Godeps" || name == "Makefile" || name == "vimrc"
    || name == ".vimrc" || name == "Vagrantfile" || name == ".zshrc" || name == ".bashrc"
    || name == "terminalrc" || name == ".gitconfig" || name == ".gitignore"
    || name == ".gitmodules"
  }

  /**
   * An extension the table lists gets a glyph of its own: neither the
   * fallback, nor a space, nor the directory glyph.
   */
  lemma ListedExtensionGlyph(ext: string)
    requires IsExtensionKey(ext)
    ensures ExtensionIcon(ext) != FallbackGlyph
    ensures ExtensionIcon(ext) != ' ' && ExtensionIcon(ext) != DirectoryGlyph
  {
  }

  /** An extension the table does not list gets the fallback glyph. */
  lemma UnlistedExtensionFallsBack(ext: string)
    requires !IsExtensionKey(ext)
    ensures ExtensionIcon(ext) == FallbackGlyph
  {
  }

  /**
   * The extension table falls back exactly for the extensions it does not list, and
   * never answers with a space or the directory glyph.
   */
  lemma ExtensionFallbackIffUnlisted(ext: string)
    ensures ExtensionIcon(ext) == FallbackGlyph <==> !IsExtensionKey(ext)
    ensures ExtensionIcon(ext) != ' ' && ExtensionIcon(ext) != DirectoryGlyph
  {
    if IsExtensionKey(ext) {
      ListedExtensionGlyph(ext);
    } else {
      UnlistedExtensionFallsBack(ext);
    }
  }

  /**
   * A name the table lists gets a glyph of its own: neither the fallback,
   * nor a space, nor the directory glyph.
   */
  lemma ListedNameGlyph(name: string)
    requires IsNameKey(name)
    ensures NameIcon(name) != FallbackGlyph
    ensures NameIcon(name) != ' ' && NameIcon(name) != DirectoryGlyph
  {
  }

  /** A name the table does not list gets the fallback glyph. */
  lemma UnlistedNameFallsBack(name: string)
    requires !IsNameKey(name)
    ensures NameIcon(name) == FallbackGlyph
  {
  }

  /**
   * The name table falls back exactly for the names it does not list, and
   * never answers with a space or the directory glyph.
   */
  lemma NameFallbackIffUnlisted(name: string)
    ensures NameIcon(name) == FallbackGlyph <==> !IsNameKey(name)
    ensures NameIcon(name) != ' ' && NameIcon(name) != DirectoryGlyph
  {
    if IsNameKey(name) {
      ListedNameGlyph(name);
    } else {
      UnlistedNameFallsBack(name);
    }
  }

  // ---------------------------------------------------------------------------
  // Resolution
  // ---------------------------------------------------------------------------

  /**
   * The glyph of a file (`icon`): a directory gets the directory glyph;
   * otherwise the classifier's answer if it has one; otherwise the extension
   * table if the file has an extension; otherwise the exact-name table.
   */
  function Icon(classify: Classifier, file: File): (g: char)
    ensures g == ' ' ==> !file.isDirectory && classify(file) == Some(' ')
    ensures g == DirectoryGlyph ==> file.isDirectory || classify(file) == Some(DirectoryGlyph)
  {
    if file.isDirectory then DirectoryGlyph
    else if classify(file).Some? then classify(file).value
    else if file.ext.Some? then
      ExtensionFallbackIffUnlisted(file.ext.value);
      ExtensionIcon(file.ext.value)
    else
      NameFallbackIffUnlisted(file.name);
      NameIcon(file.name)
  }

  // ---------------------------------------------------------------------------
  // Resolution as a list of layers, first answer wins
  // ---------------------------------------------------------------------------

  /** One rule of the resolver: a glyph for the files it answers for, `None` for the rest. */
  type Layer = File -> Option<char>

  /** The answer of the first layer that answers, `None` when none does. */
  function FirstAnswer(layers: seq<Layer>, file: File): (r: Option<char>)
    ensures r.None? <==> forall i :: 0 <= i < |layers| ==> layers[i](file).None?
    ensures r.Some? ==> exists i :: 0 <= i < |layers| && layers[i](file) == r &&
                          forall j :: 0 <= j < i ==> layers[j](file).None?
  {
    if layers == [] then None
    else if layers[0](file).Some? then layers[0](file)
    else FirstAnswer(layers[1..], file)
  }

  /** A layer that answers decides the result when no earlier layer answers. */
  lemma {:induction false} FirstAnswerAt(layers: seq<Layer>, k: nat, file: File)
    requires k < |layers| && layers[k](file).Some?
    requires forall j :: 0 <= j < k ==> layers[j](file).None?
    ensures FirstAnswer(layers, file) == layers[k](file)
  {
    if k > 0 {
      assert layers[0](file).None?;
      forall j | 0 <= j < k - 1
        ensures layers[1..][j](file).None?
      {
        assert layers[1..][j] == layers[j + 1];
      }
      FirstAnswerAt(layers[1..], k - 1, file);
    }
  }

  /** The first rule: directories. */
  function DirectoryLayer(file: File): Option<char>
  {
    if file.isDirectory then Some(DirectoryGlyph) else None
  }

  /** The third rule: the extension table, for every file that has an extension. */
  function ExtensionLayer(file: File): Option<char>
  {
    if file.ext.Some? then Some(ExtensionIcon(file.ext.value)) else None
  }

  /** The last rule: the exact-name table, which answers for every file. */
  function NameLayer(file: File): Option<char>
  {
    Some(NameIcon(file.name))
  }

  /** The resolver's rules in their order of precedence; the classifier is the second. */
  function Layers(classify: Classifier): (layers: seq<Layer>)
    ensures |layers| == 4 && layers[1] == classify
    ensures forall f: File :: f.isDirectory ==> layers[0](f) == Some(DirectoryGlyph)
    ensures forall f: File :: layers[3](f).Some?
  {
    [DirectoryLayer, classify, ExtensionLayer, NameLayer]
  }

  /**
   * `Icon` is the first answer of its layers, and some layer always answers:
   * the last one, the name table with its fallback, answers for every file.
   */
  lemma IconIsFirstAnswer(classify: Classifier, file: File)
    ensures FirstAnswer(Layers(classify), file) == Some(Icon(classify, file))
  {
    var layers := Layers(classify);
    if file.isDirectory {
      FirstAnswerAt(layers, 0, file);
    } else if classify(file).Some? {
      FirstAnswerAt(layers, 1, file);
    } else if file.ext.Some? {
      FirstAnswerAt(layers, 2, file);
    } else {
      FirstAnswerAt(layers, 3, file);
    }
  }

  // ---------------------------------------------------------------------------
  // Order of the rules
  // ---------------------------------------------------------------------------

  /** Every directory gets the directory glyph, whatever the classifier, extension or name. */
  lemma DirectoryAlwaysWins(classify: Classifier, file: File)
    requires file.isDirectory
    ensures Icon(classify, file) == DirectoryGlyph
  {
  }

  /** A classifier's answer for a non-directory is the glyph; neither table is consulted. */
  lemma ClassifierShadowsTables(classify: Classifier, file: File, other: File)
    requires !file.isDirectory && classify(file).Some?
    requires !other.isDirectory && classify(other) == classify(file)
    ensures Icon(classify, file) == classify(file).value
    ensures Icon(classify, other) == Icon(classify, file)
  {
  }

  /**
   * When a file has an extension and the classifier declines, only the
   * extension table decides: the name plays no part, and an extension outside
   * the table gets the fallback even when the name is in the name table.
   */
  lemma ExtensionShadowsName(classify: Classifier, ext: string, name1: string, name2: string)
    requires classify(File(false, Some(ext), name1)).None?
    requires classify(File(false, Some(ext), name2)).None?
    ensures Icon(classify, File(false, Some(ext), name1)) == ExtensionIcon(ext)
    ensures Icon(classify, File(false, Some(ext), name1)) == Icon(classify, File(false, Some(ext), name2))
    ensures !IsExtensionKey(ext) ==> Icon(classify, File(false, Some(ext), name1)) == FallbackGlyph
  {
  }

  /**
   * A file without an extension that the classifier declines gets the
   * fallback glyph exactly when its name is not in the name table.
   */
  lemma UnknownNameFallsBack(classify: Classifier, name: string)
    requires classify(File(false, None, name)).None?
    ensures Icon(classify, File(false, None, name)) == FallbackGlyph <==> !IsNameKey(name)
  {
  }

  /**
   * With a category classifier, a recognised file shows its category's glyph,
   * which reads back as that category.
   */
  lemma CategoryGlyphShown(kind: File -> Option<Category>, file: File)
    requires !file.isDirectory && kind(file).Some?
    ensures Icon(ByCategory(kind), file) == kind(file).value.Value()
    ensures CategoryOfGlyph(Icon(ByCategory(kind), file)) == kind(file)
  {
  }

  // ---------------------------------------------------------------------------
  // Fixtures from the tables
  // ---------------------------------------------------------------------------

  // Golden glyphs, one key per lemma.

  lemma ExtensionGlyphOfRs()
    ensures ExtensionIcon("rs") == '\U{e7a8}'
  {
  }

  // Single-key lookups that the arm lemmas below are proved from.

  lemma ExtensionGlyphOfPy()
    ensures ExtensionIcon("py") == '\U{e606}'
  {
  }

  lemma ExtensionGlyphOfPyc()
    ensures ExtensionIcon("pyc") == '\U{e606}'
  {
  }

  lemma ExtensionGlyphOfPyo()
    ensures ExtensionIcon("pyo") == '\U{e606}'
  {
  }

  lemma ExtensionGlyphOfPyd()
    ensures ExtensionIcon("pyd") == '\U{e606}'
  {
  }

  lemma ExtensionGlyphOfMd()
    ensures ExtensionIcon("md") == '\U{e609}'
  {
  }

  lemma ExtensionGlyphOfMarkdown()
    ensures ExtensionIcon("markdown") == '\U{e609}'
  {
  }

  lemma ExtensionGlyphOfMdx()
    ensures ExtensionIcon("mdx") == '\U{e609}'
  {
  }

  lemma ExtensionGlyphOfRmd()
    ensures ExtensionIcon("rmd") == '\U{e609}'
  {
  }

  lemma ExtensionGlyphOfJson()
    ensures ExtensionIcon("json") == '\U{e60b}'
  {
  }

  lemma ExtensionGlyphOfAvro()
    ensures ExtensionIcon("avro") == '\U{e60b}'
  {
  }

  /** Every key of the Python arm shows the Python glyph. */
  lemma PythonExtensionsShareGlyph(ext: string)
    requires ext == "py" || ext == "pyc" || ext == "pyo" || ext == "pyd"
    ensures ExtensionIcon(ext) == '\U{e606}'
  {
    if ext == "py" {
      ExtensionGlyphOfPy();
    } else if ext == "pyc" {
      ExtensionGlyphOfPyc();
    } else if ext == "pyo" {
      ExtensionGlyphOfPyo();
    } else {
      ExtensionGlyphOfPyd();
    }
  }

  /** Every key of the Markdown arm shows the Markdown glyph. */
  lemma MarkdownExtensionsShareGlyph(ext: string)
    requires ext == "md" || ext == "markdown" || ext == "mdx" || ext == "rmd"
    ensures ExtensionIcon(ext) == '\U{e609}'
  {
    if ext == "md" {
      ExtensionGlyphOfMd();
    } else if ext == "markdown" {
      ExtensionGlyphOfMarkdown();
    } else if ext == "mdx" {
      ExtensionGlyphOfMdx();
    } else {
      ExtensionGlyphOfRmd();
    }
  }

  /** "json" and "avro" sit on two different arms that give the same glyph. */
  lemma JsonAndAvroShareGlyph()
    ensures ExtensionIcon("json") == ExtensionIcon("avro") == '\U{e60b}'
  {
    ExtensionGlyphOfJson();
    ExtensionGlyphOfAvro();
  }

  /** Extensions are compared as given: an upper-case one is not in the table. */
  lemma UpperCaseExtensionFallsBack()
    ensures ExtensionIcon("RS") == FallbackGlyph
  {
  }

  /** "Dockerfile" and "dockerfile" are listed, "DOCKERFILE" is not. */
  lemma DockerfileNameIsCaseSensitive()
    ensures NameIcon("Dockerfile") == '\U{f308}' && NameIcon("dockerfile") == '\U{f308}'
    ensures NameIcon("DOCKERFILE") == FallbackGlyph
  {
  }

  /** The vim configuration file is listed both with and without its leading dot. */
  lemma VimrcNames()
    ensures NameIcon(".vimrc") == '\U{e7c5}' && NameIcon("vimrc") == '\U{e7c5}'
  {
  }

  /** ".bashrc" is listed only with its leading dot. */
  lemma BashrcNeedsItsDot()
    ensures NameIcon(".bashrc") == '\U{e795}' && NameIcon("bashrc") == FallbackGlyph
  {
  }

  // ---------------------------------------------------------------------------
  // Painting
  // ---------------------------------------------------------------------------

  /**
   * The style an icon is painted in, given the colour decision for its file:
   * none without a decision; for an underlined decision its foreground colour
   * alone (or no style when it has none), since an underlined glyph renders
   * badly; otherwise the decision's style unchanged.
   */
  function IconStyle(decision: Option<Style>): (s: Style)
    ensures !s.isUnderline
    ensures decision.None? ==> s == Plain
    ensures decision.Some? ==> s.foreground == decision.value.foreground
    ensures decision.Some? && !decision.value.isUnderline ==> s == decision.value
    ensures decision.Some? && decision.value.isUnderline ==> s.(foreground := None) == Plain
  {
    match decision
    case None => Plain
    case Some(c) =>
      if c.isUnderline then
        match c.foreground
        case Some(colour) => FromColour(colour)
        case None => Plain
      else c
  }

  /** Painting an icon again in its own style changes nothing. */
  lemma IconStyleIdempotent(decision: Option<Style>)
    ensures IconStyle(Some(IconStyle(decision))) == IconStyle(decision)
  {
  }

  /** An underlined, bold, red decision paints the icon red and nothing else. */
  lemma UnderlinedRedIcon()
    ensures IconStyle(Some(Plain.(foreground := Some(Red), isUnderline := true, isBold := true)))
         == FromColour(Red)
  {
  }

  /**
   * The painted icon (`painted_icon`): the glyph in its icon style, then one
   * unstyled space. The shown text is the glyph and the space; the glyph
   * keeps the decision's foreground colour, and the decision's whole style
   * when it is not underlined; nothing is underlined; and without a colour
   * decision nothing is styled at all.
   */
  function PaintedIcon(classify: Classifier, decision: Option<Style>, file: File): (r: seq<Painted>)
    ensures Text(r) == [Icon(classify, file), ' ']
    ensures |r| == 2 && r[0].style == IconStyle(decision)
    ensures r[|r| - 1] == Painted(Plain, " ")
    ensures r[0].text == [Icon(classify, file)]
    ensures decision.Some? ==> r[0].style.foreground == decision.value.foreground
    ensures decision.Some? && !decision.value.isUnderline ==> r[0].style == decision.value
    ensures forall p :: p in r ==> !p.style.isUnderline
    ensures decision.None? ==> forall p :: p in r ==> p.style == Plain
  {
    var icon := [Painted(IconStyle(decision), [Icon(classify, file)])];
    TextAppend(icon, [Painted(Plain, " ")]);
    icon + [Painted(Plain, " ")]
  }

  /**
   * The painted icon ends in exactly one space: the first of its two shown
   * characters is a space only when the classifier itself answered with a
   * space for a non-directory.
   */
  lemma OneTrailingSpace(classify: Classifier, decision: Option<Style>, file: File)
    ensures |Text(PaintedIcon(classify, decision, file))| == 2
    ensures Text(PaintedIcon(classify, decision, file))[0] == ' '
        <==> !file.isDirectory && classify(file) == Some(' ')
  {
  }
}
