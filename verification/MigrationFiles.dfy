// collectMigrations (repository/db.go): the migration list of a directory, in version order.
module MigrationFiles {
  import opened Base
  import opened Decimal
  import opened FileSystem
  import opened Migrations

  predicate HasSuffix(s: string, suffix: string) {
    |suffix| <= |s| && s[|s|-|suffix|..] == suffix
  }

  /** strings.SplitN(name, "_", 2)[0] */
  function BeforeUnderscore(s: string): string {
    if s == [] || s[0] == '_' then "" else [s[0]] + BeforeUnderscore(s[1..])
  }

  /** The version an entry contributes, if it is an .up.sql file with a positive number before its first underscore. */
  function VersionOf(e: DirEntry): Option<int> {
    if e.isDir || !HasSuffix(e.name, ".up.sql") then None
    else
      var v := ParseInt(BeforeUnderscore(e.name));
      if v.Some? && v.value > 0 then v else None
  }

  /** n is where the first underscore stands, or the end. */
  predicate FirstUnderscore(s: string, n: nat) {
    n <= |s| && (forall i :: 0 <= i < n ==> s[i] != '_') && (n < |s| ==> s[n] == '_')
  }

  lemma {:induction false} BeforeUnderscoreIs(s: string, n: nat)
    requires FirstUnderscore(s, n)
    ensures BeforeUnderscore(s) == s[..n]
  {
    if n > 0 {
      BeforeUnderscoreIs(s[1..], n - 1);
      assert s[..n] == [s[0]] + s[1..][..n-1];
    }
  }

  /** An entry has a version exactly when it is a file, ends in .up.sql, and has a positive 64-bit number before its
      first underscore. */
  lemma VersionOfIff(e: DirEntry, n: nat, v: int)
    requires FirstUnderscore(e.name, n)
    ensures VersionOf(e) == Some(v) <==>
            && !e.isDir && |e.name| >= 7 && e.name[|e.name|-7..] == ".up.sql"
            && 0 < v <= 0x7FFF_FFFF_FFFF_FFFF && exists sign, d :: Spells(e.name[..n], sign, d, v)
  {
    BeforeUnderscoreIs(e.name, n);
    ParseIntIff(e.name[..n], v);
  }

  /** The usual file name of a migration is read back. */
  lemma {:induction false} VersionOfNumbered(n: nat, title: string)
    requires 0 < n <= MAX_INT64
    ensures VersionOf(DirEntry(Print(n) + "_" + title + ".up.sql", false)) == Some(n)
  {
    var name := Print(n) + "_" + title + ".up.sql";
    assert name == Print(n) + ("_" + title + ".up.sql");
    StopsAtUnderscore(Print(n), title + ".up.sql");
    assert name == Print(n) + (['_'] + (title + ".up.sql"));
    ValPrint(n);
  }

  lemma {:induction false} StopsAtUnderscore(d: string, rest: string)
    requires AllDigits(d)
    ensures BeforeUnderscore(d + (['_'] + rest)) == d
  {
    if d != [] {
      assert (d + (['_'] + rest))[1..] == d[1..] + (['_'] + rest);
      StopsAtUnderscore(d[1..], rest);
    }
  }

  function Collected(es: seq<DirEntry>): seq<Migration> {
    if es == [] then []
    else
      var v := VersionOf(es[|es|-1]);
      Collected(es[..|es|-1]) + if v.Some? then [Migration(v.value, es[|es|-1].name)] else []
  }

  function InsertSorted(ms: seq<Migration>, m: Migration): seq<Migration> {
    if ms == [] || ms[|ms|-1].version <= m.version then ms + [m]
    else InsertSorted(ms[..|ms|-1], m) + [ms[|ms|-1]]
  }

  /** sort.Slice by version; the order it leaves among equal versions is not relied on. */
  function SortByVersion(ms: seq<Migration>): seq<Migration> {
    if ms == [] then [] else InsertSorted(SortByVersion(ms[..|ms|-1]), ms[|ms|-1])
  }

  lemma {:induction false} InsertSortedKeeps(ms: seq<Migration>, m: Migration)
    ensures multiset(InsertSorted(ms, m)) == multiset(ms) + multiset{m}
  {
    if ms != [] && ms[|ms|-1].version > m.version {
      assert ms == ms[..|ms|-1] + [ms[|ms|-1]];
      InsertSortedKeeps(ms[..|ms|-1], m);
    }
  }

  /** Inserting into a sorted list whose versions, like m's, do not exceed bound. */
  lemma {:induction false} InsertSortedSorts(ms: seq<Migration>, m: Migration, bound: int)
    requires Sorted(ms) && m.version <= bound && forall i :: 0 <= i < |ms| ==> ms[i].version <= bound
    ensures Sorted(InsertSorted(ms, m))
    ensures forall i :: 0 <= i < |InsertSorted(ms, m)| ==> InsertSorted(ms, m)[i].version <= bound
  {
    if ms != [] && ms[|ms|-1].version > m.version {
      InsertSortedSorts(ms[..|ms|-1], m, ms[|ms|-1].version);
    }
  }

  function Highest(ms: seq<Migration>, m: Migration): (bound: int)
    ensures m.version <= bound && forall i :: 0 <= i < |ms| ==> ms[i].version <= bound
  {
    if ms == [] then m.version
    else
      var h := Highest(ms[..|ms|-1], m);
      if ms[|ms|-1].version > h then ms[|ms|-1].version else h
  }

  lemma {:induction false} SortKeeps(ms: seq<Migration>)
    ensures multiset(SortByVersion(ms)) == multiset(ms)
  {
    if ms != [] {
      var before, last := ms[..|ms|-1], ms[|ms|-1];
      SortKeeps(before);
      InsertSortedKeeps(SortByVersion(before), last);
      assert ms == before + [last];
      assert multiset(before + [last]) == multiset(before) + multiset{last};
    }
  }

  lemma {:induction false} SortSorts(ms: seq<Migration>)
    ensures Sorted(SortByVersion(ms))
  {
    if ms != [] {
      var before, last := SortByVersion(ms[..|ms|-1]), ms[|ms|-1];
      SortSorts(ms[..|ms|-1]);
      InsertSortedSorts(before, last, Highest(before, last));
    }
  }

  /** Ascending by version, and exactly the qualifying entries, each as often as it is listed. */
  method CollectMigrations(entries: seq<DirEntry>) returns (migrations: seq<Migration>)
    ensures Sorted(migrations) && multiset(migrations) == multiset(Collected(entries))
    ensures Qualifying(entries, migrations)
  {
    migrations := [];
    for i := 0 to |entries|
      invariant migrations == Collected(entries[..i])
    {
      assert entries[..i+1][..i] == entries[..i];
      var v := VersionOf(entries[i]);
      if v.None? {
        continue;
      }
      migrations := migrations + [Migration(v.value, entries[i].name)];
    }
    assert entries[..|entries|] == entries;
    SortKeeps(migrations);
    SortSorts(migrations);
    SameElements(SortByVersion(migrations), migrations);
    CollectedQualify(entries);
    migrations := SortByVersion(migrations);
  }

  lemma SameElements(a: seq<Migration>, b: seq<Migration>)
    requires multiset(a) == multiset(b)
    ensures forall m :: m in a <==> m in b
  {
    forall m
      ensures m in a <==> m in b
    {
      assert m in a <==> m in multiset(a);
      assert m in b <==> m in multiset(b);
    }
  }

  /** Every collected migration comes from a qualifying entry, and every qualifying entry is collected. */
  ghost predicate Qualifying(entries: seq<DirEntry>, ms: seq<Migration>) {
    && (forall e :: e in entries && VersionOf(e).Some? ==> Migration(VersionOf(e).value, e.name) in ms)
    && (forall m :: m in ms ==> m.version > 0 && ComesFrom(entries, m))
  }

  ghost predicate ComesFrom(entries: seq<DirEntry>, m: Migration) {
    exists e :: e in entries && e.name == m.file && VersionOf(e) == Some(m.version)
  }

  lemma {:induction false} CollectedQualify(entries: seq<DirEntry>)
    ensures Qualifying(entries, Collected(entries))
  {
    if entries != [] {
      var before, e := entries[..|entries|-1], entries[|entries|-1];
      CollectedQualify(before);
      assert entries == before + [e];
      var ms := Collected(entries);
      forall m | m in ms
        ensures m.version > 0 && ComesFrom(entries, m)
      {
        if m in Collected(before) {
          assert ComesFrom(before, m);
        } else {
          assert e in entries && e.name == m.file && VersionOf(e) == Some(m.version);
        }
      }
    }
  }
}
