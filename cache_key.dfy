/** Deriving the on-disk location of a cached API resource (FileCache.makepath):
    thread documents keep their path, every other document gets the day's date
    spliced in before ".json", so it is fetched again once per calendar day. */
module CacheKey {
  import opened Text
  import opened Dates

  const ThreadMarker := "/thread/"
  const JsonExt := ".json"

  /** posixpath.join(a, b): an absolute `b` discards `a`; otherwise one "/"
      separates them unless `a` is empty or already ends in "/". */
  function PathJoin(a: string, b: string): (r: string)
    ensures |b| <= |r| && r[|r| - |b|..] == b
    ensures !IsAbsolute(b) ==> |a| <= |r| && r[..|a|] == a
  {
    if |b| > 0 && b[0] == '/' then b
    else if a == "" || a[|a| - 1] == '/' then a + b
    else a + "/" + b
  }

  predicate IsAbsolute(p: string)
  {
    |p| > 0 && p[0] == '/'
  }

  /** path.find("/thread/") != -1: the marker occurs somewhere in the path. */
  predicate IsThreadPath(path: string)
    ensures IsThreadPath(path) <==> exists i: nat :: OccursAt(path, ThreadMarker, i)
  {
    Find(path, ThreadMarker) != -1
  }

  /** What each ".json" of a day-scoped path becomes: "-YYYY-MM-DD.json". */
  function DaySuffix(today: Date): (r: string)
    ensures |r| == 16
  {
    "-" + IsoDate(today) + JsonExt
  }

  /** The logical path with every ".json" rewritten, before it is joined to
      the cache directory. */
  function DayScoped(path: string, today: Date): (r: string)
    ensures Find(path, JsonExt) == -1 ==> r == path
  {
    var r := ReplaceAll(path, JsonExt, DaySuffix(today));
    assert Find(path, JsonExt) == -1 ==> r == path by {
      if Find(path, JsonExt) == -1 {
        ReplaceAllAbsent(path, JsonExt, DaySuffix(today));
      }
    }
    r
  }

  /** FileCache.makepath with the date as a parameter. */
  function MakePath(basepath: string, path: string, today: Date): (r: string)
    ensures IsThreadPath(path) || Find(path, JsonExt) == -1 ==> r == PathJoin(basepath, path)
  {
    if !IsThreadPath(path) then PathJoin(basepath, DayScoped(path, today))
    else PathJoin(basepath, path)
  }

  /** A thread document is cached under its own path, whatever the day. */
  lemma ThreadPathStable(basepath: string, path: string, d1: Date, d2: Date)
    requires IsThreadPath(path)
    ensures MakePath(basepath, path, d1) == MakePath(basepath, path, d2) == PathJoin(basepath, path)
  {
  }

  /** Rewriting does not change whether a path is absolute. */
  lemma DayScopedKeepsAbsolute(path: string, today: Date)
    ensures IsAbsolute(DayScoped(path, today)) == IsAbsolute(path)
  {
  }

  /** Joining to one directory keeps two different relative (or two
      different absolute) paths apart. */
  lemma PathJoinInjective(a: string, x: string, y: string)
    requires x != y && IsAbsolute(x) == IsAbsolute(y)
    ensures PathJoin(a, x) != PathJoin(a, y)
  {
  }

  /** Day rollover: a non-thread path naming a ".json" document is cached
      under a different file on every valid date. */
  lemma DayRollover(basepath: string, path: string, d1: Date, d2: Date)
    requires !IsThreadPath(path) && Find(path, JsonExt) != -1
    requires d1 != d2
    ensures MakePath(basepath, path, d1) != MakePath(basepath, path, d2)
  {
    IsoDateInjective(d1, d2);
    assert DaySuffix(d1)[1..11] == IsoDate(d1);
    assert DaySuffix(d2)[1..11] == IsoDate(d2);
    ReplaceAllDistinguishes(path, JsonExt, DaySuffix(d1), DaySuffix(d2));
    DayScopedKeepsAbsolute(path, d1);
    DayScopedKeepsAbsolute(path, d2);
    PathJoinInjective(basepath, DayScoped(path, d1), DayScoped(path, d2));
  }

  /** A path whose only ".json" is its extension gets the date spliced in
      right before it. */
  lemma SingleExtension(basepath: string, stem: string, today: Date)
    requires !IsThreadPath(stem + JsonExt)
    requires Find(stem + JsonExt, JsonExt) == |stem|
    ensures MakePath(basepath, stem + JsonExt, today) == PathJoin(basepath, stem + DaySuffix(today))
  {
    ReplaceAllSuffix(stem, JsonExt, DaySuffix(today));
  }

  /** A board-level document "{board}/{name}.json" (catalog, threads,
      archive) is cached as "{board}/{name}-YYYY-MM-DD.json". */
  lemma BoardDocumentKey(basepath: string, board: string, name: string, today: Date)
    requires '/' !in board && '/' !in name && '.' !in board && '.' !in name
    ensures MakePath(basepath, board + "/" + name + JsonExt, today)
         == PathJoin(basepath, board + "/" + name + DaySuffix(today))
  {
    var stem := board + "/" + name;
    var path := stem + JsonExt;
    forall i: nat | OccursAt(path, ThreadMarker, i) ensures false {
      assert path[i] == path[i..i + 8][0] == '/';
      assert path[i + 7] == path[i..i + 8][7] == '/';
      SlashOnlyAfterBoard(board, name, i);
      SlashOnlyAfterBoard(board, name, i + 7);
    }
    assert OccursAt(path, JsonExt, |stem|);
    assert forall j :: 0 <= j < |stem| ==> stem[j] != '.' by {
      forall j | 0 <= j < |stem| ensures stem[j] != '.' {
        if j < |board| { assert stem[j] == board[j]; }
        else if j > |board| { assert stem[j] == name[j - |board| - 1]; }
      }
    }
    assert path[..|stem|] == stem;
    FindFirst(path, JsonExt, |stem|);
    SingleExtension(basepath, stem, today);
  }

  lemma SlashOnlyAfterBoard(board: string, name: string, j: nat)
    requires '/' !in board && '/' !in name
    requires j < |board + "/" + name + JsonExt| && (board + "/" + name + JsonExt)[j] == '/'
    ensures j == |board|
  {
  }

  lemma NewYear2024Suffix()
    ensures DaySuffix(CivilDate(2024, 1, 1)) == "-2024-01-01.json"
  {
  }

  /** The catalog of board "a" on 1 January 2024 is cached as
      "a/catalog-2024-01-01.json" under the cache directory. */
  lemma CatalogKeyExample(cachedir: string, board: string, name: string, day: Date)
    requires board == "a" && name == "catalog" && day == CivilDate(2024, 1, 1)
    ensures MakePath(cachedir, board + "/" + name + JsonExt, day)
         == PathJoin(cachedir, board + "/" + name + "-2024-01-01.json")
  {
    BoardDocumentKey(cachedir, board, name, day);
    NewYear2024Suffix();
  }

  /** Joining a relative path to a directory without a trailing "/". */
  lemma PathJoinRelative(dir: string, p: string)
    requires dir != "" && dir[|dir| - 1] != '/' && !IsAbsolute(p)
    ensures PathJoin(dir, p) == dir + "/" + p
  {
  }

  /** A thread of board "a" keeps its path on any day. */
  lemma ThreadKeyExample(today: Date)
    ensures MakePath("a.4cdn.org", "a/thread/555.json", today)
         == "a.4cdn.org/a/thread/555.json"
  {
  }

  /** str.replace rewrites every ".json", not only the final extension: the
      first one becomes the day's suffix and the rest of the path is rewritten
      in turn. */
  lemma EveryJsonRewritten(a: string, b: string, day: Date)
    requires Find(a + JsonExt + b, JsonExt) == |a|
    ensures DayScoped(a + JsonExt + b, day) == a + DaySuffix(day) + DayScoped(b, day)
  {
    ReplaceAllStep(a, JsonExt, b, DaySuffix(day));
  }

  /** The same on the whole cache key of a non-thread path. */
  lemma NonThreadKey(basepath: string, a: string, b: string, day: Date)
    requires !IsThreadPath(a + JsonExt + b) && Find(a + JsonExt + b, JsonExt) == |a|
    ensures MakePath(basepath, a + JsonExt + b, day) == PathJoin(basepath, a + DaySuffix(day) + DayScoped(b, day))
  {
    EveryJsonRewritten(a, b, day);
  }

  /** "x.json.json" has both of its ".json" rewritten. */
  lemma TwoExtensionsExample(day: Date)
    ensures DayScoped("x.json.json", day) == "x" + DaySuffix(day) + DaySuffix(day)
  {
    assert "x.json.json" == "x" + JsonExt + JsonExt;
    FindFirst("x.json.json", JsonExt, 1);
    EveryJsonRewritten("x", JsonExt, day);
    assert "" + JsonExt + "" == JsonExt;
    EveryJsonRewritten("", "", day);
    assert DayScoped("", day) == "";
  }
}
