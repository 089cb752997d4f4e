/**
 * The import-rewriting Babel plugin (packages/babel-plugin-imports/src/index.ts):
 * bare module specifiers are redirected to a third-party URL that names the
 * importing file; relative, absolute and https specifiers stay as written.
 */
module ImportRewrite {
  import opened Wrappers

  predicate StartsWith(s: string, prefix: string) {
    |prefix| <= |s| && s[..|prefix|] == prefix
  }

  /** Specifiers the plugin leaves as written: relative, absolute or already a URL. */
  predicate LeftAlone(moduleName: string) {
    StartsWith(moduleName, ".") || StartsWith(moduleName, "/") || StartsWith(moduleName, "https://")
  }

  const NamePrefix: string := "https://third_party/?name="
  const FromPart: string := "&from="

  /** transformModulePath, with fileName defaulting to the empty string. */
  function TransformModulePath(moduleName: string, fileName: string := ""): (r: string)
    ensures StartsWith(r, "https://") || r == moduleName
  {
    if LeftAlone(moduleName) then moduleName
    else NamePrefix + moduleName + FromPart + fileName
  }

  /** A specifier is kept exactly when it is relative, absolute or https. */
  lemma UnchangedIffLeftAlone(moduleName: string, fileName: string)
    ensures TransformModulePath(moduleName, fileName) == moduleName <==> LeftAlone(moduleName)
  {
    if !LeftAlone(moduleName) {
      assert |TransformModulePath(moduleName, fileName)| > |moduleName|;
    }
  }

  /**
   * Any other specifier becomes the third-party URL: the prefix, the specifier
   * verbatim, "&from=" and the importing file's name.
   */
  lemma RewrittenForm(moduleName: string, fileName: string)
    requires !LeftAlone(moduleName)
    ensures var r := TransformModulePath(moduleName, fileName);
      && StartsWith(r, NamePrefix)
      && r[|NamePrefix|..|NamePrefix| + |moduleName|] == moduleName
      && r[|NamePrefix| + |moduleName|..] == FromPart + fileName
  {
    var tail := FromPart + fileName;
    var rest := moduleName + tail;
    var r := TransformModulePath(moduleName, fileName);
    ConcatAssoc(NamePrefix, moduleName, FromPart, fileName);
    Split(NamePrefix, rest);
    Split(moduleName, tail);
    assert r[|NamePrefix|..|NamePrefix| + |moduleName|] == rest[..|moduleName|];
  }

  lemma ConcatAssoc(w: string, x: string, y: string, z: string)
    ensures w + x + y + z == w + (x + (y + z))
  {
  }

  lemma Split(x: string, y: string)
    ensures (x + y)[..|x|] == x && (x + y)[|x|..] == y
  {
  }

  /** Rewriting its own output changes nothing, whatever file name the second pass is given. */
  lemma Idempotent(moduleName: string, fileName: string, otherFile: string)
    ensures var once := TransformModulePath(moduleName, fileName);
      TransformModulePath(once, otherFile) == once
  {
    var once := TransformModulePath(moduleName, fileName);
    if !LeftAlone(moduleName) {
      assert once[..8] == "https://";
    }
  }

  /** Two different specifiers that are both rewritten in one file give different URLs. */
  lemma RewriteInjective(m1: string, m2: string, fileName: string)
    requires !LeftAlone(m1) && !LeftAlone(m2)
    requires TransformModulePath(m1, fileName) == TransformModulePath(m2, fileName)
    ensures m1 == m2
  {
    RewrittenForm(m1, fileName);
    RewrittenForm(m2, fileName);
    var r := TransformModulePath(m1, fileName);
    assert |r| == |NamePrefix| + |m1| + |FromPart| + |fileName|;
  }

  /** A bare package name imported from /fakepath is redirected with both parts verbatim. */
  lemma ExampleBare()
    ensures TransformModulePath("something", "/fakepath")
         == "https://third_party/?name=something&from=/fakepath"
  {
    assert "something"[..1] == "s";
    assert NamePrefix + "something" == "https://third_party/?name=something";
    assert FromPart + "/fakepath" == "&from=/fakepath";
  }

  /** Relative specifiers, with or without an extension, are kept. */
  lemma ExampleRelative()
    ensures TransformModulePath("./something", "/fakepath") == "./something"
    ensures TransformModulePath("./something.ts", "/fakepath") == "./something.ts"
    ensures TransformModulePath("./something.js", "/fakepath") == "./something.js"
  {
    assert "./something"[..1] == ".";
    assert "./something.ts"[..1] == ".";
    assert "./something.js"[..1] == ".";
  }

  /** Without a file name the "from" parameter is empty. */
  lemma ExampleNoFile()
    ensures TransformModulePath("something") == "https://third_party/?name=something&from="
  {
    assert "something"[..1] == "s";
    assert NamePrefix + "something" == "https://third_party/?name=something";
  }

  // ---------------------------------------------------------------------------
  // The visitors
  // ---------------------------------------------------------------------------

  /**
   * The statements the plugin visits, reduced to what it reads and passes on:
   * the source string, and the specifiers and declaration it copies into a
   * replacement node unchanged.
   */
  datatype Statement =
    | ImportDeclaration(specifiers: seq<string>, source: string)
    | ExportNamedDeclaration(declaration: Option<string>, specifiers: seq<string>, exportSource: Option<string>)
    | ExportAllDeclaration(source: string)
    | OtherStatement(text: string)

  /** The module specifier a visitor looks at, if the statement has one. */
  function SourceOf(st: Statement): (r: Option<string>)
    ensures r.None? <==> st.OtherStatement? || (st.ExportNamedDeclaration? && st.exportSource.None?)
  {
    match st
    case ImportDeclaration(_, source) => Some(source)
    case ExportNamedDeclaration(_, _, source) => source
    case ExportAllDeclaration(source) => Some(source)
    case OtherStatement(_) => None
  }

  /** The statement with its specifier replaced; everything else it carries is kept. */
  function WithSource(st: Statement, path: string): (r: Statement)
    requires SourceOf(st).Some?
    ensures SourceOf(r) == Some(path)
  {
    match st
    case ImportDeclaration(specifiers, _) => ImportDeclaration(specifiers, path)
    case ExportNamedDeclaration(declaration, specifiers, _) => ExportNamedDeclaration(declaration, specifiers, Some(path))
    case ExportAllDeclaration(_) => ExportAllDeclaration(path)
  }

  /**
   * The three visitors: the replacement node, or None when the statement is
   * left in place (no source, or a path the rewrite keeps). An absent file
   * name is the empty string, as in transformModulePath's default.
   */
  function Visit(st: Statement, fileName: Option<string>): (r: Option<Statement>)
  {
    match SourceOf(st)
    case None => None
    case Some(modulePath) =>
      var transformed := TransformModulePath(modulePath, if fileName.Some? then fileName.value else "");
      if transformed == modulePath then None else Some(WithSource(st, transformed))
  }

  /**
   * A statement is replaced exactly when it has a source that is not
   * relative, absolute or https; the replacement carries the rewritten
   * source and the same kind, specifiers and declaration.
   */
  lemma VisitReplacesOnlyChanged(st: Statement, fileName: Option<string>)
    ensures var file := if fileName.Some? then fileName.value else "";
      && (Visit(st, fileName).Some? <==> SourceOf(st).Some? && !LeftAlone(SourceOf(st).value))
      && (Visit(st, fileName).Some? ==>
            Visit(st, fileName).value == WithSource(st, TransformModulePath(SourceOf(st).value, file)))
  {
    if SourceOf(st).Some? {
      UnchangedIffLeftAlone(SourceOf(st).value, if fileName.Some? then fileName.value else "");
    }
  }

  /** The statement after its visit: the replacement if there is one, else itself. */
  function Rewrite(st: Statement, fileName: Option<string>): Statement {
    match Visit(st, fileName)
    case None => st
    case Some(replacement) => replacement
  }

  /**
   * Babel visits a replacement node again; that visit leaves it in place, so
   * rewriting stops after one replacement per statement.
   */
  lemma ReplacementIsFixpoint(st: Statement, fileName: Option<string>, otherFile: Option<string>)
    ensures Visit(Rewrite(st, fileName), otherFile).None?
  {
    var file := if fileName.Some? then fileName.value else "";
    var other := if otherFile.Some? then otherFile.value else "";
    match SourceOf(st)
    case None =>
    case Some(modulePath) =>
      Idempotent(modulePath, file, other);
  }

  /** Rewriting a program statement by statement. */
  function RewriteProgram(program: seq<Statement>, fileName: Option<string>): (r: seq<Statement>)
    ensures |r| == |program|
  {
    if program == [] then []
    else [Rewrite(program[0], fileName)] + RewriteProgram(program[1..], fileName)
  }

  /**
   * Each statement of the rewritten program is its own statement rewritten:
   * nothing is added, dropped or reordered, and statements with no source
   * come out as they went in.
   */
  lemma {:induction false} RewriteProgramPointwise(program: seq<Statement>, fileName: Option<string>)
    ensures forall k | 0 <= k < |program| :: RewriteProgram(program, fileName)[k] == Rewrite(program[k], fileName)
  {
    if program != [] {
      RewriteProgramPointwise(program[1..], fileName);
      forall k | 0 <= k < |program|
        ensures RewriteProgram(program, fileName)[k] == Rewrite(program[k], fileName)
      {
        if k > 0 {
          assert program[1..][k - 1] == program[k];
        }
      }
    }
  }

  /** Running the plugin over its own output changes nothing. */
  lemma {:induction false} RewriteProgramIdempotent(program: seq<Statement>, fileName: Option<string>)
    ensures RewriteProgram(RewriteProgram(program, fileName), fileName) == RewriteProgram(program, fileName)
  {
    if program != [] {
      ReplacementIsFixpoint(program[0], fileName, fileName);
      RewriteProgramIdempotent(program[1..], fileName);
      var once := RewriteProgram(program, fileName);
      assert once[1..] == RewriteProgram(program[1..], fileName);
    }
  }
}
