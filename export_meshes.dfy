/** The "Export Assets" operator (export_meshes.py): every mesh object marked
    for export is written to `<export path>/<object name>.fbx`, the meshes
    taken in case-insensitive name order. */
module ExportMeshes {
  import opened Seqs

  /** An object of the blend file, as far as the export list looks at it. */
  datatype Obj = Obj(name: string, kind: string, enableExport: bool)

  /** The objects list_meshes keeps. */
  predicate Eligible(o: Obj) {
    o.kind == "MESH" && o.enableExport
  }

  function LowerChar(c: char): char {
    if 'A' <= c <= 'Z' then (c as int + 32) as char else c
  }

  /** str.lower on the ASCII letters. */
  function Lower(s: string): (r: string)
    ensures |r| == |s|
    ensures forall i | 0 <= i < |s| :: r[i] == LowerChar(s[i])
  {
    seq(|s|, i requires 0 <= i < |s| => LowerChar(s[i]))
  }

  /** The sort key: the lower-cased name. */
  function Key(o: Obj): string {
    Lower(o.name)
  }

  /** Python's order on strings: code point by code point, a proper prefix
      before the longer string. */
  predicate LexLe(a: string, b: string) {
    a == [] || (b != [] && (a[0] < b[0] || (a[0] == b[0] && LexLe(a[1..], b[1..]))))
  }

  lemma {:induction false} LexLeRefl(a: string)
    ensures LexLe(a, a)
  {
    if a != [] {
      LexLeRefl(a[1..]);
    }
  }

  lemma {:induction false} LexLeTotal(a: string, b: string)
    ensures LexLe(a, b) || LexLe(b, a)
  {
    if a != [] && b != [] && a[0] == b[0] {
      LexLeTotal(a[1..], b[1..]);
    }
  }

  lemma {:induction false} LexLeTrans(a: string, b: string, c: string)
    requires LexLe(a, b) && LexLe(b, c)
    ensures LexLe(a, c)
  {
    if a != [] && a[0] == b[0] && b[0] == c[0] {
      LexLeTrans(a[1..], b[1..], c[1..]);
    }
  }

  lemma {:induction false} LexLeAntisym(a: string, b: string)
    requires LexLe(a, b) && LexLe(b, a)
    ensures a == b
  {
    if a != [] {
      LexLeAntisym(a[1..], b[1..]);
      assert a == [a[0]] + a[1..];
      assert b == [b[0]] + b[1..];
    }
  }

  /** Neighbours in non-decreasing key order. */
  predicate Sorted(s: seq<Obj>) {
    forall i | 0 < i < |s| :: LexLe(Key(s[i - 1]), Key(s[i]))
  }

  /** Insert x after the last element whose key is at most x's. */
  function Insert(t: seq<Obj>, x: Obj): (r: seq<Obj>)
    ensures multiset(r) == multiset(t) + multiset{x}
  {
    if t == [] then [x]
    else
      var last := t[|t| - 1];
      if LexLe(Key(last), Key(x)) then t + [x]
      else
        assert t == t[..|t| - 1] + [last];
        Insert(t[..|t| - 1], x) + [last]
  }

  /** Inserting into a sorted sequence keeps it sorted; the new last element
      is x or the old last one. */
  lemma {:induction false} InsertSorted(t: seq<Obj>, x: Obj)
    requires Sorted(t)
    ensures |Insert(t, x)| == |t| + 1
    ensures Sorted(Insert(t, x))
    ensures Insert(t, x)[|t|] == x || (t != [] && Insert(t, x)[|t|] == t[|t| - 1])
  {
    if t != [] {
      var last := t[|t| - 1];
      var init := t[..|t| - 1];
      if !LexLe(Key(last), Key(x)) {
        SortedPrefix(t);
        InsertSorted(init, x);
        LexLeTotal(Key(last), Key(x));
        var s := Insert(init, x);
        var r := s + [last];
        assert Insert(t, x) == r;
        assert LexLe(Key(s[|init|]), Key(last));
        forall i | 0 < i < |r|
          ensures LexLe(Key(r[i - 1]), Key(r[i]))
        {
          if i < |r| - 1 {
            assert r[i - 1] == s[i - 1] && r[i] == s[i];
          }
        }
      }
    }
  }

  /** sorted(s, key=lambda o: o.name.lower()), as a stable insertion sort. */
  function SortByName(s: seq<Obj>): (r: seq<Obj>)
    ensures Sorted(r)
    ensures multiset(r) == multiset(s)
  {
    if s == [] then []
    else
      assert s == s[..|s| - 1] + [s[|s| - 1]];
      var t := SortByName(s[..|s| - 1]);
      InsertSorted(t, s[|s| - 1]);
      Insert(t, s[|s| - 1])
  }

  /** Selects the objects whose key is k. */
  function KeyIs(k: string): Obj -> bool {
    o => Key(o) == k
  }

  lemma FilterOne(x: Obj, k: string)
    ensures Filter([x], KeyIs(k)) == if Key(x) == k then [x] else []
  {
    assert [x][1..] == [];
  }

  /** Inserting x keeps the order among the elements that share a key. */
  lemma {:induction false} InsertStable(t: seq<Obj>, x: Obj, k: string)
    ensures Filter(Insert(t, x), KeyIs(k)) == Filter(t, KeyIs(k)) + Filter([x], KeyIs(k))
    decreases |t|, 1
  {
    if t == [] {
      FilterOne(x, k);
    } else {
      var last := t[|t| - 1];
      var init := t[..|t| - 1];
      if LexLe(Key(last), Key(x)) {
        FilterConcat(t, [x], KeyIs(k));
      } else {
        InsertLater(t, x, k);
      }
    }
  }

  lemma {:induction false} InsertLater(t: seq<Obj>, x: Obj, k: string)
    requires t != [] && !LexLe(Key(t[|t| - 1]), Key(x))
    ensures Filter(Insert(t, x), KeyIs(k)) == Filter(t, KeyIs(k)) + Filter([x], KeyIs(k))
    decreases |t|, 0
  {
    var last := t[|t| - 1];
    var init := t[..|t| - 1];
    assert Insert(t, x) == Insert(init, x) + [last];
    var p := KeyIs(k);
    var fi, fx, fl := Filter(init, p), Filter([x], p), Filter([last], p);
    assert fx == [] || fl == [] by {
      LexLeRefl(Key(x));
      FilterOne(x, k);
      FilterOne(last, k);
    }
    calc {
      Filter(Insert(t, x), p);
      { FilterConcat(Insert(init, x), [last], p); }
      Filter(Insert(init, x), p) + fl;
      { InsertStable(init, x, k); }
      fi + fx + fl;
      { if fx == [] { assert fi + fx == fi; } else { assert fl == []; } }
      fi + fl + fx;
      { FilterSnoc(t, p); }
      Filter(t, p) + fx;
    }
  }

  lemma SortedPrefix(t: seq<Obj>)
    requires Sorted(t) && t != []
    ensures Sorted(t[..|t| - 1])
  {
    var init := t[..|t| - 1];
    forall i | 0 < i < |init|
      ensures LexLe(Key(init[i - 1]), Key(init[i]))
    {
      assert init[i - 1] == t[i - 1] && init[i] == t[i];
    }
  }

  /** The sort is stable: the objects sharing a key keep their order. */
  lemma {:induction false} SortStable(s: seq<Obj>, k: string)
    ensures Filter(SortByName(s), KeyIs(k)) == Filter(s, KeyIs(k))
  {
    if s != [] {
      var init, x := s[..|s| - 1], s[|s| - 1];
      var p := KeyIs(k);
      assert SortByName(s) == Insert(SortByName(init), x);
      calc {
        Filter(SortByName(s), p);
        { InsertStable(SortByName(init), x, k); }
        Filter(SortByName(init), p) + Filter([x], p);
        { SortStable(init, k); }
        Filter(init, p) + Filter([x], p);
        { FilterSnoc(s, p); }
        Filter(s, p);
      }
    }
  }

  /** Neighbour order extends to every pair. */
  lemma {:induction false} SortedAll(s: seq<Obj>)
    requires Sorted(s)
    ensures forall i, j | 0 <= i < j < |s| :: LexLe(Key(s[i]), Key(s[j]))
  {
    if |s| > 1 {
      var init := s[..|s| - 1];
      SortedAll(init);
      forall i | 0 <= i < |s| - 1
        ensures LexLe(Key(s[i]), Key(s[|s| - 1]))
      {
        if i < |s| - 2 {
          assert LexLe(Key(init[i]), Key(init[|s| - 2]));
          LexLeTrans(Key(s[i]), Key(s[|s| - 2]), Key(s[|s| - 1]));
        }
      }
    }
  }

  /** list_meshes: the eligible objects, by lower-cased name, ties in the
      order the blend file lists them. */
  function ListMeshes(objects: seq<Obj>): (r: seq<Obj>)
    ensures forall o | o in r :: o in objects && Eligible(o)
    ensures forall o | o in objects && Eligible(o) :: o in r
    ensures multiset(r) == multiset(Filter(objects, Eligible))
    ensures forall i, j | 0 <= i < j < |r| :: LexLe(Key(r[i]), Key(r[j]))
  {
    var r := SortByName(Filter(objects, Eligible));
    SortedAll(r);
    assert forall o :: o in r <==> o in multiset(r);
    r
  }

  /** Objects with the same lower-cased name keep their relative order. */
  lemma ListStable(objects: seq<Obj>, k: string)
    ensures Filter(ListMeshes(objects), KeyIs(k)) == Filter(Filter(objects, Eligible), KeyIs(k))
  {
    SortStable(Filter(objects, Eligible), k);
  }

  /** A path `dir / file`. */
  datatype FilePath = FilePath(dir: string, file: string)

  /** The file a mesh is exported to. */
  function ExportFile(dir: string, o: Obj): FilePath {
    FilePath(dir, o.name + ".fbx")
  }

  function ExportFiles(dir: string, meshes: seq<Obj>): (r: seq<FilePath>)
    ensures |r| == |meshes|
    ensures forall i | 0 <= i < |r| :: r[i] == ExportFile(dir, meshes[i])
  {
    seq(|meshes|, i requires 0 <= i < |meshes| => ExportFile(dir, meshes[i]))
  }

  /** Different names give different files. */
  lemma ExportFileInjective(dir: string, a: Obj, b: Obj)
    ensures ExportFile(dir, a) == ExportFile(dir, b) <==> a.name == b.name
  {
    if ExportFile(dir, a) == ExportFile(dir, b) {
      assert a.name == (a.name + ".fbx")[..|a.name|];
    }
  }

  /** Meshes with pairwise different names go to pairwise different files. */
  lemma DistinctFiles(dir: string, meshes: seq<Obj>)
    requires forall i, j | 0 <= i < j < |meshes| :: meshes[i].name != meshes[j].name
    ensures Distinct(ExportFiles(dir, meshes))
  {
    forall i, j | 0 <= i < j < |meshes|
      ensures ExportFiles(dir, meshes)[i] != ExportFiles(dir, meshes)[j]
    {
      ExportFileInjective(dir, meshes[i], meshes[j]);
    }
  }

  /** The scene state the operator touches: the current frame, and the FBX
      files it has the exporter write, in order. */
  class Scene {
    var frameCurrent: int
    var exported: seq<FilePath>

    constructor (frameCurrent: int)
      ensures this.frameCurrent == frameCurrent && exported == []
    {
      this.frameCurrent := frameCurrent;
      exported := [];
    }

    /** The loop of ExportAssets.execute over the listed meshes. The FBX
        exporter may leave the scene at another frame, `exporterFrame(f)`
        after writing file f; `run_in_object_mode` restores the frame it
        saved, which is 0, so the frame stays 0. */
    method ExportEach(meshes: seq<Obj>, exportPath: string, exporterFrame: FilePath -> int) returns (count: nat)
      requires frameCurrent == 0
      modifies this
      ensures frameCurrent == 0
      ensures exported == old(exported) + ExportFiles(exportPath, meshes)
      ensures count == |meshes|
    {
      count := 0;
      for i := 0 to |meshes|
        invariant frameCurrent == 0
        invariant count == i
        invariant exported == old(exported) + ExportFiles(exportPath, meshes[..i])
      {
        var fileOutput := ExportFile(exportPath, meshes[i]);
        assert ExportFiles(exportPath, meshes[..i + 1]) == ExportFiles(exportPath, meshes[..i]) + [fileOutput];
        count := count + 1;
        var oldFrame := frameCurrent;
        exported := exported + [fileOutput];
        frameCurrent := exporterFrame(fileOutput);
        frameCurrent := oldFrame;
      }
      assert meshes[..|meshes|] == meshes;
    }

    /** ExportAssets.execute: reset the frame to 0, export every listed mesh
        to its own file and report how many there were. */
    method ExportAssets(objects: seq<Obj>, exportPath: string, exporterFrame: FilePath -> int) returns (count: nat)
      modifies this
      ensures frameCurrent == 0
      ensures exported == old(exported) + ExportFiles(exportPath, ListMeshes(objects))
      ensures count == |ListMeshes(objects)|
    {
      frameCurrent := 0;
      var meshes := ListMeshes(objects);
      count := ExportEach(meshes, exportPath, exporterFrame);
    }
  }
}
