/**
 `addImport` of build/rewrite.go and the tree part of `rewriteFile`: trim
 the comments, make sure the runtime helper package is imported, then run
 the rewriter with the name it is imported under. Import paths are kept
 unquoted, and `filepath.Base` is the parameter `base`.
 */
module Rewrite {
  import opened Ast
  import opened Extents
  import opened Trace
  import opened Comments

  const RuntimeUtilPath: string := "github.com/eandre/discover/runtimeutil"
  const RuntimeUtilName: string := "_discover_runtimeutil_"
  const RuntimeUtilVar: string := "TraceID"

  /** The index of the first import of `path`, if there is one. */
  function FirstImport(imports: seq<Import>, path: string): (r: Option<nat>)
    ensures r.Some? ==> r.value < |imports| && imports[r.value].path == path
    ensures r.Some? ==> forall j :: 0 <= j < r.value ==> imports[j].path != path
    ensures r.None? ==> forall j :: 0 <= j < |imports| ==> imports[j].path != path
  {
    if |imports| == 0 then None
    else if imports[0].path == path then Some(0)
    else
      var k := FirstImport(imports[1..], path);
      if k.None? then None else Some(k.value + 1)
  }

  /** The name a file refers to an import by: its explicit name, else the last element of the path. */
  function LocalName(imp: Import, base: string -> string): string {
    if imp.name.Some? then imp.name.value else base(imp.path)
  }

  function ImportDecl(imp: Import): Decl {
    GenDecl(ImportTok, [ImportSpec(imp)])
  }

  /** `var _ = <name>.<v>`, which keeps the import used. */
  function ReferenceDecl(name: string, v: string): Decl {
    GenDecl(VarTok, [ValueSpec(["_"], [Selector(Ident(NoPos, name), NoPos, v)])])
  }

  /**
   `addImport`: an existing import of the path is reused under its name;
   otherwise the import goes in as the first declaration, a reference to
   `defaultName.defaultVar` as the last, and `defaultName` is the name.
   */
  function AddImport(f: File, path: string, defaultName: string, defaultVar: string, base: string -> string): (r: (File, string))
    ensures var k := FirstImport(f.imports, path);
      k.Some? ==> r == (f, LocalName(f.imports[k.value], base))
    ensures FirstImport(f.imports, path).None? ==>
      var n := |f.decls|;
      r.1 == defaultName
      && |r.0.decls| == n + 2
      && r.0.decls[0] == ImportDecl(Import(Some(defaultName), path))
      && r.0.decls[1..n + 1] == f.decls
      && r.0.decls[n + 1] == ReferenceDecl(defaultName, defaultVar)
      && r.0.imports == f.imports + [Import(Some(defaultName), path)]
      && r.0.comments == f.comments
  {
    var k := FirstImport(f.imports, path);
    if k.Some? then (f, LocalName(f.imports[k.value], base))
    else
      var imp := Import(Some(defaultName), path);
      var decls := [ImportDecl(imp)] + f.decls + [ReferenceDecl(defaultName, defaultVar)];
      assert decls[1..|f.decls| + 1] == f.decls;
      (File(decls, f.imports + [imp], f.comments), defaultName)
  }

  /** After `addImport` the path is imported, and the name returned is the name it is imported under. */
  lemma AddImportImports(f: File, path: string, defaultName: string, defaultVar: string, base: string -> string)
    ensures var (g, name) := AddImport(f, path, defaultName, defaultVar, base);
      FirstImport(g.imports, path).Some? && LocalName(g.imports[FirstImport(g.imports, path).value], base) == name
  {
    var (g, name) := AddImport(f, path, defaultName, defaultVar, base);
    if FirstImport(f.imports, path).None? {
      FirstImportAppend(f.imports, Import(Some(defaultName), path), path);
    }
  }

  lemma {:induction false} FirstImportAppend(imports: seq<Import>, imp: Import, path: string)
    requires FirstImport(imports, path).None? && imp.path == path
    ensures FirstImport(imports + [imp], path) == Some(|imports|)
  {
    if |imports| > 0 {
      assert (imports + [imp])[1..] == imports[1..] + [imp];
      FirstImportAppend(imports[1..], imp, path);
    }
  }

  /** A second `addImport` of the same path finds the first one's import and changes nothing. */
  lemma AddImportIdempotent(f: File, path: string, defaultName: string, defaultVar: string, base: string -> string)
    ensures var (g, name) := AddImport(f, path, defaultName, defaultVar, base);
      AddImport(g, path, defaultName, defaultVar, base) == (g, name)
  {
    AddImportImports(f, path, defaultName, defaultVar, base);
  }

  /** The declarations `addImport` adds are ones the walk accepts. */
  lemma AddImportWF(f: File, path: string, defaultName: string, defaultVar: string, base: string -> string)
    requires WFDecls(f.decls)
    ensures var g := AddImport(f, path, defaultName, defaultVar, base).0;
      WFDecls(g.decls) && (AllBodies(g.decls) <==> AllBodies(f.decls))
  {
    var g := AddImport(f, path, defaultName, defaultVar, base).0;
    if FirstImport(f.imports, path).None? {
      var n := |f.decls|;
      var v := Selector(Ident(NoPos, defaultName), NoPos, defaultVar);
      assert WFExpr(v);
      assert WFExprs([v]);
      assert forall i :: 1 <= i < n + 1 ==> g.decls[i] == f.decls[i - 1] by {
        forall i | 1 <= i < n + 1 ensures g.decls[i] == f.decls[i - 1] {
          assert g.decls[1..n + 1][i - 1] == g.decls[i];
        }
      }
      if AllBodies(f.decls) {
        forall i | 0 <= i < |g.decls| && g.decls[i].FuncDecl? ensures g.decls[i].fbody.Some? {
          assert 1 <= i < n + 1;
          assert g.decls[i] == f.decls[i - 1];
        }
      }
      if AllBodies(g.decls) {
        forall i | 0 <= i < n && f.decls[i].FuncDecl? ensures f.decls[i].fbody.Some? {
          assert g.decls[i + 1] == f.decls[i];
        }
      }
    }
  }

  /**
   The tree work of `rewriteFile`: only the `//go:` directives are kept,
   the runtime helper is imported, and the rewriter runs with the name it is
   imported under. `None` is the nil dereference on a function without a
   body.
   */
  function RewriteTree(f: File, at: Pos -> LineCol, base: string -> string): (r: Option<File>)
    requires WFDecls(f.decls)
    ensures r.Some? <==> AllBodies(f.decls)
    ensures r.Some? ==> r.value.comments == TrimGroups(f.comments, at)
    ensures r.Some? ==> FirstImport(r.value.imports, RuntimeUtilPath).Some?
  {
    var trimmed := File(f.decls, f.imports, TrimGroups(f.comments, at));
    var (g, ru) := AddImport(trimmed, RuntimeUtilPath, RuntimeUtilName, RuntimeUtilVar, base);
    AddImportWF(trimmed, RuntimeUtilPath, RuntimeUtilName, RuntimeUtilVar, base);
    AddImportImports(trimmed, RuntimeUtilPath, RuntimeUtilName, RuntimeUtilVar, base);
    WalkFile(Rewriter, ru, g)
  }
}
