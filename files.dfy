/** The output side of the export script: where a table is written and what
    a sequence of writes leaves on disk. A CSV write is recorded as the table
    it stores under its path; writing a path again replaces its content. */
module Files {
  import opened Catalog
  import opened Parser

  /** The files on disk: path to stored table. */
  type FileSystem = map<string, Table>

  /** One `to_csv` call: a table stored under a path. */
  datatype Write = Write(path: string, table: Table)

  /** `os.path.join(dir, name)` with POSIX rules: an absolute `name`
      replaces `dir`, and a separator is added only when `dir` does not end
      with one. */
  function PathJoin(dir: string, name: string): string
  {
    if name != [] && name[0] == '/' then name
    else if dir == [] || dir[|dir| - 1] == '/' then dir + name
    else dir + "/" + name
  }

  /** A joined path always ends with `name`; it starts with `dir` unless
      `name` is absolute, and an absolute `name` is the whole result. */
  lemma PathJoinMeaning(dir: string, name: string)
    ensures var path := PathJoin(dir, name);
            |name| <= |path| && path[|path| - |name|..] == name
    ensures name != [] && name[0] == '/' ==> PathJoin(dir, name) == name
    ensures var path := PathJoin(dir, name);
            (name == [] || name[0] != '/') ==> |dir| <= |path| && path[..|dir|] == dir
  {
  }

  /** The file an equation's partition is written to:
      resources/<id>_<suffix>.csv. */
  function OutputPath(id: string, suffix: string): string
  {
    PathJoin("resources", id + "_" + suffix + ".csv")
  }

  /** The file system after the writes, in order, on top of `fs`. */
  function Apply(fs: FileSystem, ws: seq<Write>): FileSystem
  {
    if ws == [] then fs
    else
      var w := ws[|ws| - 1];
      Apply(fs, ws[..|ws| - 1])[w.path := w.table]
  }

  lemma ApplyAppend(fs: FileSystem, ws: seq<Write>, w: Write)
    ensures Apply(fs, ws + [w]) == Apply(fs, ws)[w.path := w.table]
  {
    assert (ws + [w])[..|ws|] == ws;
  }

  /** Writing two batches one after the other is writing their
      concatenation. */
  lemma {:induction false} ApplyConcat(fs: FileSystem, ws1: seq<Write>, ws2: seq<Write>)
    ensures Apply(fs, ws1 + ws2) == Apply(Apply(fs, ws1), ws2)
    decreases |ws2|
  {
    if ws2 == [] {
      assert ws1 + ws2 == ws1;
    } else {
      var front := ws2[..|ws2| - 1];
      assert (ws1 + ws2)[..|ws1 + ws2| - 1] == ws1 + front;
      ApplyConcat(fs, ws1, front);
    }
  }

  /** For a relative identifier the output path is the identifier and the
      suffix under the `resources` directory. */
  lemma OutputPathShape(id: string, suffix: string)
    requires RelativeName(id)
    ensures OutputPath(id, suffix) == "resources/" + (id + "_" + suffix + ".csv")
  {
  }

  /** Length of `_<suffix>.csv` at the end of an output path: the
      ninth-last character is the underscore exactly when the suffix has
      four letters. */
  function TailLength(p: string): nat
  {
    if |p| >= 9 && p[|p| - 9] == '_' then 9 else 10
  }

  /** The identifier an output path was built from. */
  function OutputPathId(p: string): string
  {
    if |p| >= 10 + TailLength(p) then p[10..|p| - TailLength(p)] else []
  }

  /** The suffix an output path was built from. */
  function OutputPathSuffix(p: string): string
  {
    if |p| >= TailLength(p) then p[|p| - TailLength(p) + 1..|p| - 4] else []
  }

  lemma NinthFromEnd(s: string)
    requires s in FileSuffixes
    ensures var t := "_" + s + ".csv"; |t| >= 9 && (t[|t| - 9] == '_' <==> |s| == 4)
    ensures ("_" + s + ".csv")[1..|s| + 1] == s
  {
  }

  /** The middle and the end of `a + (b + c)`, cut at the lengths of `a`
      and `c`. */
  lemma SlicesOfConcat(a: string, b: string, c: string, i: nat, j: nat)
    requires i <= j <= |c|
    ensures var p := a + (b + c);
            && p[|a|..|p| - |c|] == b
            && p[|p| - |c| + i..|p| - |c| + j] == c[i..j]
  {
    var p := a + (b + c);
    assert p[|a|..|p| - |c|] == b;
    assert p[|p| - |c|..] == c;
    assert p[|p| - |c|..][i..j] == p[|p| - |c| + i..|p| - |c| + j];
  }

  /** An output path built from a relative identifier and one of the
      suffixes gives back both. */
  lemma OutputPathDecodes(id: string, suffix: string)
    requires RelativeName(id) && suffix in FileSuffixes
    ensures OutputPathId(OutputPath(id, suffix)) == id
    ensures OutputPathSuffix(OutputPath(id, suffix)) == suffix
  {
    var p, t := OutputPath(id, suffix), "_" + suffix + ".csv";
    OutputPathShape(id, suffix);
    assert p == "resources/" + (id + t);
    NinthFromEnd(suffix);
    SlicesOfConcat("resources/", id, t, |t| - 9, |t| - 8);
    SlicesOfConcat("resources/", id, t, 1, |t| - 4);
    assert p[|p| - 9] == t[|t| - 9];
  }

  /** Distinct (identifier, suffix) pairs never share an output file. */
  lemma OutputPathInjective(id1: string, s1: string, id2: string, s2: string)
    requires RelativeName(id1) && RelativeName(id2)
    requires s1 in FileSuffixes && s2 in FileSuffixes
    requires id1 != id2 || s1 != s2
    ensures OutputPath(id1, s1) != OutputPath(id2, s2)
  {
    OutputPathDecodes(id1, s1);
    OutputPathDecodes(id2, s2);
  }

  /** A path is stored after the writes exactly when it was stored before or
      some write names it. */
  lemma {:induction false} ApplyKeys(fs: FileSystem, ws: seq<Write>, p: string)
    ensures p in Apply(fs, ws) <==> p in fs || exists j :: 0 <= j < |ws| && ws[j].path == p
    decreases |ws|
  {
    if ws != [] {
      var front := ws[..|ws| - 1];
      ApplyKeys(fs, front, p);
      if exists j :: 0 <= j < |front| && front[j].path == p {
        var j :| 0 <= j < |front| && front[j].path == p;
        assert ws[j].path == p;
      }
      if j :| 0 <= j < |ws| && ws[j].path == p {
        if j < |ws| - 1 {
          assert front[j].path == p;
        }
      }
    }
  }

  /** The last write to a path decides its content. */
  lemma {:induction false} ApplyLastWriteWins(fs: FileSystem, ws: seq<Write>, j: nat)
    requires j < |ws|
    requires forall k :: j < k < |ws| ==> ws[k].path != ws[j].path
    ensures ws[j].path in Apply(fs, ws)
    ensures Apply(fs, ws)[ws[j].path] == ws[j].table
    decreases |ws|
  {
    if j < |ws| - 1 {
      var front := ws[..|ws| - 1];
      assert front[j] == ws[j];
      ApplyLastWriteWins(fs, front, j);
    }
  }

  /** A path that no write names keeps what it held. */
  lemma {:induction false} ApplyUntouched(fs: FileSystem, ws: seq<Write>, p: string)
    requires forall k :: 0 <= k < |ws| ==> ws[k].path != p
    ensures p in Apply(fs, ws) <==> p in fs
    ensures p in fs ==> Apply(fs, ws)[p] == fs[p]
    decreases |ws|
  {
    if ws != [] {
      ApplyUntouched(fs, ws[..|ws| - 1], p);
    }
  }

  /** The last write that names `p`, when some write does. */
  lemma {:induction false} LastWriteTo(ws: seq<Write>, p: string) returns (j: nat)
    requires exists i :: 0 <= i < |ws| && ws[i].path == p
    ensures j < |ws| && ws[j].path == p
    ensures forall k :: j < k < |ws| ==> ws[k].path != p
    decreases |ws|
  {
    if ws[|ws| - 1].path == p {
      j := |ws| - 1;
    } else {
      var front := ws[..|ws| - 1];
      var i :| 0 <= i < |ws| && ws[i].path == p;
      assert front[i].path == p;
      j := LastWriteTo(front, p);
      assert forall k :: j < k < |front| ==> front[k] == ws[k];
    }
  }

  /** Making the same writes a second time changes nothing: exporting again
      leaves the files as the first export left them. */
  lemma ApplyTwice(fs: FileSystem, ws: seq<Write>)
    ensures Apply(Apply(fs, ws), ws) == Apply(fs, ws)
  {
    var once := Apply(fs, ws);
    var twice := Apply(once, ws);
    forall p
      ensures (p in twice <==> p in once) && (p in once ==> twice[p] == once[p])
    {
      if exists i :: 0 <= i < |ws| && ws[i].path == p {
        var j := LastWriteTo(ws, p);
        ApplyLastWriteWins(fs, ws, j);
        ApplyLastWriteWins(once, ws, j);
        ApplyKeys(once, ws, p);
      } else {
        ApplyUntouched(once, ws, p);
      }
    }
    assert twice.Keys == once.Keys;
  }
}
