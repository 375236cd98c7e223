/** The library scan, its cached index, and the incremental merge of a scan of new roots. The
    archive readers are left out: a file is the sequence of headers and boards found in it. */
module LibraryIndex {
  import opened Common
  import opened Strings
  import opened UnifBoards

  /** One callback of the file scan. */
  datatype Hit =
    | Ines(file: string, header: seq<Byte>, entry: Option<string>)
    | Unif(file: string, board: string, entry: Option<string>)

  datatype Directory = Directory(path: string, files: seq<seq<Hit>>)

  /** The walk of a root, or None if it is not a directory. */
  type Root = Option<seq<Directory>>

  const INES: seq<Byte> := [0x4E, 0x45, 0x53, 0x1A]

  function InesMapper(hdr: seq<Byte>): Option<nat> {
    if |hdr| < 16 || hdr[0..4] != INES then None
    else
      var b6: int, b7: int, b8: int := hdr[6], hdr[7], hdr[8];
      var mapper := b6 / 16 + b7 / 16 * 16;
      Some(if b7 / 4 % 4 == 2 then mapper + b8 % 16 * 0x100 else mapper)
  }

  function InesSubmapper(hdr: seq<Byte>): nat {
    if |hdr| < 16 || hdr[0..4] != INES then 0
    else
      var b7: int, b8: int := hdr[7], hdr[8];
      if b7 / 4 % 4 == 2 then b8 / 16 else 0
  }

  datatype InesRec = InesRec(name: string, sub: nat)
  datatype UnifRec = UnifRec(name: string, mapper: Option<nat>)

  datatype Index = Index(scanned: nat, unifSeen: nat, ines: map<nat, seq<InesRec>>, unif: map<string, seq<UnifRec>>)

  const EMPTY: Index := Index(0, 0, map[], map[])

  function FullName(file: string, entry: Option<string>): string {
    if entry.None? then file else file + ":" + entry.value
  }

  function At<K, V>(m: map<K, seq<V>>, k: K): seq<V> {
    if k in m then m[k] else []
  }

  function Appended<K, V>(m: map<K, seq<V>>, k: K, v: V): map<K, seq<V>> {
    m[k := At(m, k) + [v]]
  }

  /** The board table is a parameter. */
  type Boards = map<string, nat>

  function BoardMapper(boards: Boards, board: string): Option<nat> {
    if board in boards then Some(boards[board]) else None
  }

  function Add(boards: Boards, idx: Index, hit: Hit): Index {
    match hit
    case Ines(file, header, entry) =>
      var counted := idx.(scanned := idx.scanned + 1);
      if InesMapper(header).None? then counted
      else
        counted.(ines := Appended(idx.ines, InesMapper(header).value,
                                  InesRec(FullName(file, entry), InesSubmapper(header))))
    case Unif(file, board, entry) =>
      idx.(unifSeen := idx.unifSeen + 1,
           unif := Appended(idx.unif, board, UnifRec(FullName(file, entry), BoardMapper(boards, board))))
  }

  function IndexOf(boards: Boards, hits: seq<Hit>): Index {
    if hits == [] then EMPTY else Add(boards, IndexOf(boards, hits[..|hits| - 1]), hits[|hits| - 1])
  }

  predicate Skipped(path: string) {
    Contains(path, "/target/") || Contains(path, "/.git/")
  }

  function Flatten(files: seq<seq<Hit>>): seq<Hit> {
    if files == [] then [] else Flatten(files[..|files| - 1]) + files[|files| - 1]
  }

  function DirHits(dirs: seq<Directory>): seq<Hit> {
    if dirs == [] then []
    else
      var last := dirs[|dirs| - 1];
      DirHits(dirs[..|dirs| - 1]) + if Skipped(last.path) then [] else Flatten(last.files)
  }

  function Hits(roots: seq<Root>): seq<Hit> {
    if roots == [] then []
    else
      var last := roots[|roots| - 1];
      Hits(roots[..|roots| - 1]) + if last.None? then [] else DirHits(last.value)
  }

  /** The index of a scan of `roots` in order. */
  function Scan(boards: Boards, roots: seq<Root>): Index {
    IndexOf(boards, Hits(roots))
  }

  function MergeLists<K, V>(a: map<K, seq<V>>, b: map<K, seq<V>>): map<K, seq<V>> {
    map k | k in a.Keys + b.Keys :: At(a, k) + At(b, k)
  }

  function Merge(a: Index, b: Index): Index {
    Index(a.scanned + b.scanned, a.unifSeen + b.unifSeen, MergeLists(a.ines, b.ines), MergeLists(a.unif, b.unif))
  }

  // ---- Headers ----

  /** A plain header: the mapper's low four bits above the flags of byte 6, its high four above those of
      byte 7, whose second bit pair is not the mark of the newer format. */
  function InesHeader(mapper: nat, sizes: seq<Byte>, flags6: nat, flags7: nat, rest: seq<Byte>): seq<Byte>
    requires mapper < 256 && |sizes| == 2 && flags6 < 16 && flags7 < 16 && |rest| >= 8
  {
    [0x4E, 0x45, 0x53, 0x1A] + sizes + [mapper % 16 * 16 + flags6, mapper / 16 * 16 + flags7] + rest
  }

  /** The newer format carries four more bits of the mapper in byte 8, under the submapper. */
  function Nes2Header(mapper: nat, submapper: nat, sizes: seq<Byte>, flags6: nat, flags7: nat, rest: seq<Byte>)
    : seq<Byte>
    requires mapper < 4096 && submapper < 16 && |sizes| == 2 && flags6 < 16 && flags7 < 4 && |rest| >= 7
  {
    [0x4E, 0x45, 0x53, 0x1A] + sizes
    + [mapper % 16 * 16 + flags6, mapper / 16 % 16 * 16 + 8 + flags7, submapper * 16 + mapper / 256] + rest
  }

  lemma InesReadsBack(mapper: nat, sizes: seq<Byte>, flags6: nat, flags7: nat, rest: seq<Byte>)
    requires mapper < 256 && |sizes| == 2 && flags6 < 16 && flags7 < 16 && flags7 / 4 != 2 && |rest| >= 8
    ensures var hdr := InesHeader(mapper, sizes, flags6, flags7, rest);
      InesMapper(hdr) == Some(mapper) && InesSubmapper(hdr) == 0
  {
    var hdr := InesHeader(mapper, sizes, flags6, flags7, rest);
    assert hdr[0..4] == INES && hdr[6] == mapper % 16 * 16 + flags6 && hdr[7] == mapper / 16 * 16 + flags7;
    InesBits(mapper, flags6, flags7);
    hide InesHeader;
  }

  lemma InesBits(mapper: nat, flags6: nat, flags7: nat)
    requires mapper < 256 && flags6 < 16 && flags7 < 16
    ensures var b6, b7 := mapper % 16 * 16 + flags6, mapper / 16 * 16 + flags7;
      && b6 / 16 == mapper % 16 && b7 / 16 == mapper / 16 && b7 / 4 % 4 == flags7 / 4
      && mapper == mapper % 16 + mapper / 16 * 16
  {
  }

  lemma Nes2ReadsBack(mapper: nat, submapper: nat, sizes: seq<Byte>, flags6: nat, flags7: nat, rest: seq<Byte>)
    requires mapper < 4096 && submapper < 16 && |sizes| == 2 && flags6 < 16 && flags7 < 4 && |rest| >= 7
    ensures var hdr := Nes2Header(mapper, submapper, sizes, flags6, flags7, rest);
      InesMapper(hdr) == Some(mapper) && InesSubmapper(hdr) == submapper
  {
    var hdr := Nes2Header(mapper, submapper, sizes, flags6, flags7, rest);
    assert hdr[0..4] == INES && hdr[6] == mapper % 16 * 16 + flags6;
    assert hdr[7] == mapper / 16 % 16 * 16 + 8 + flags7 && hdr[8] == submapper * 16 + mapper / 256;
    Nes2Bits(mapper, submapper, flags6, flags7);
    hide Nes2Header;
  }

  lemma Nes2Bits(mapper: nat, submapper: nat, flags6: nat, flags7: nat)
    requires mapper < 4096 && submapper < 16 && flags6 < 16 && flags7 < 4
    ensures var b6, b7 := mapper % 16 * 16 + flags6, mapper / 16 % 16 * 16 + 8 + flags7;
      var b8 := submapper * 16 + mapper / 256;
      && b6 / 16 == mapper % 16 && b7 / 16 == mapper / 16 % 16 && b7 / 4 % 4 == 2
      && b8 / 16 == submapper && b8 % 16 == mapper / 256
      && mapper == mapper % 16 + mapper / 16 % 16 * 16 + mapper / 256 * 256
  {
    assert mapper / 256 == mapper / 16 / 16;
  }

  /** A header is refused exactly when it is short or has another magic number. */
  lemma NoMapperIff(hdr: seq<Byte>)
    ensures InesMapper(hdr) == None <==> |hdr| < 16 || hdr[0..4] != [0x4E, 0x45, 0x53, 0x1A]
    ensures InesMapper(hdr) == None ==> InesSubmapper(hdr) == 0
  {
  }

  // ---- The walk ----

  /** The walk goes through roots, directories and files in order, over every file of a directory but
      those below a build or repository directory. */
  lemma WalkIsOrderly(path: string, f: seq<seq<Hit>>, g: seq<seq<Hit>>, file: seq<Hit>, a: seq<Directory>,
                      b: seq<Directory>)
    ensures Hits([None]) == []
    ensures Hits([Some(a + b)]) == Hits([Some(a)]) + Hits([Some(b)])
    ensures Hits([Some([Directory(path, f + g)])])
      == Hits([Some([Directory(path, f)])]) + Hits([Some([Directory(path, g)])])
    ensures Hits([Some([Directory(path, [file])])])
      == if Occurs(path, "/target/") || Occurs(path, "/.git/") then [] else file
  {
    ContainsIff(path, "/target/");
    ContainsIff(path, "/.git/");
    hide Contains, Occurs;
    OneRoot(a + b);
    OneRoot(a);
    OneRoot(b);
    OneRoot([Directory(path, f + g)]);
    OneRoot([Directory(path, f)]);
    OneRoot([Directory(path, g)]);
    OneRoot([Directory(path, [file])]);
    DirHitsConcat(a, b);
    FlattenConcat(f, g);
    assert Flatten([file]) == Flatten([]) + file == file;
  }

  lemma OneRoot(dirs: seq<Directory>)
    ensures Hits([Some(dirs)]) == DirHits(dirs)
    ensures forall d :: dirs == [d] ==> DirHits(dirs) == if Skipped(d.path) then [] else Flatten(d.files)
  {
    hide Skipped, Flatten;
    assert [Some(dirs)][..0] == [];
    if |dirs| == 1 { assert dirs[..0] == []; }
  }

  lemma {:induction false} DirHitsConcat(a: seq<Directory>, b: seq<Directory>)
    ensures DirHits(a + b) == DirHits(a) + DirHits(b)
    decreases |b|
  {
    hide Skipped, Flatten;
    if b == [] {
      assert a + b == a;
    } else {
      var init, last := b[..|b| - 1], b[|b| - 1];
      assert (a + b)[..|a + b| - 1] == a + init && (a + b)[|a + b| - 1] == last;
      DirHitsConcat(a, init);
      var more := if Skipped(last.path) then [] else Flatten(last.files);
      assert DirHits(a) + DirHits(init) + more == DirHits(a) + (DirHits(init) + more);
    }
  }

  lemma {:induction false} FlattenConcat(a: seq<seq<Hit>>, b: seq<seq<Hit>>)
    ensures Flatten(a + b) == Flatten(a) + Flatten(b)
    decreases |b|
  {
    if b == [] {
      assert a + b == a;
    } else {
      var init, last := b[..|b| - 1], b[|b| - 1];
      assert (a + b)[..|a + b| - 1] == a + init && (a + b)[|a + b| - 1] == last;
      FlattenConcat(a, init);
      assert Flatten(a) + Flatten(init) + last == Flatten(a) + (Flatten(init) + last);
    }
  }

  // ---- The loops ----

  method ScanFile(boards: Boards, idx: Index, file: seq<Hit>, ghost before: seq<Hit>) returns (out: Index)
    requires idx == IndexOf(boards, before)
    ensures out == IndexOf(boards, before + file)
  {
    hide Add;
    out := idx;
    assert before + file[..0] == before;
    for n := 0 to |file|
      invariant out == IndexOf(boards, before + file[..n])
    {
      assert (before + file[..n + 1])[..|before| + n] == before + file[..n];
      out := Add(boards, out, file[n]);
    }
    assert file[..|file|] == file;
  }

  method ScanLibrary(boards: Boards, roots: seq<Root>) returns (out: Index)
    ensures out == Scan(boards, roots)
  {
    hide IndexOf, Hits, DirHits, Flatten, Contains;
    NoHits(boards);
    out := EMPTY;
    ghost var hits: seq<Hit> := [];
    for r := 0 to |roots|
      invariant hits == Hits(roots[..r]) && out == IndexOf(boards, hits)
    {
      HitsStep(roots, r);
      if roots[r].Some? {
        var dirs := roots[r].value;
        ghost var start := hits;
        for d := 0 to |dirs|
          invariant hits == start + DirHits(dirs[..d]) && out == IndexOf(boards, hits)
        {
          DirHitsStep(dirs, d);
          if !Skipped(dirs[d].path) {
            var files := dirs[d].files;
            ghost var dirStart := hits;
            for f := 0 to |files|
              invariant hits == dirStart + Flatten(files[..f]) && out == IndexOf(boards, hits)
            {
              FlattenStep(files, f);
              out := ScanFile(boards, out, files[f], hits);
              hits := hits + files[f];
            }
            assert files[..|files|] == files;
          }
        }
        assert dirs[..|dirs|] == dirs;
      }
    }
    assert roots[..|roots|] == roots;
  }

  lemma NoHits(boards: Boards)
    ensures IndexOf(boards, []) == EMPTY && Hits([]) == [] && DirHits([]) == [] && Flatten([]) == []
  {
  }

  lemma HitsStep(roots: seq<Root>, r: nat)
    requires r < |roots|
    ensures Hits(roots[..r + 1]) == Hits(roots[..r]) + if roots[r].None? then [] else DirHits(roots[r].value)
  {
    assert roots[..r + 1][..r] == roots[..r];
  }

  lemma DirHitsStep(dirs: seq<Directory>, d: nat)
    requires d < |dirs|
    ensures DirHits(dirs[..d + 1]) == DirHits(dirs[..d]) + if Skipped(dirs[d].path) then [] else Flatten(dirs[d].files)
  {
    assert dirs[..d + 1][..d] == dirs[..d];
  }

  lemma FlattenStep(files: seq<seq<Hit>>, f: nat)
    requires f < |files|
    ensures Flatten(files[..f + 1]) == Flatten(files[..f]) + files[f]
  {
    assert files[..f + 1][..f] == files[..f];
  }

  /** Extends the lists of `out` by those of `src`, key by key. */
  method Extend<K(==), V>(out: map<K, seq<V>>, src: map<K, seq<V>>) returns (r: map<K, seq<V>>)
    ensures r == MergeLists(out, src)
  {
    r := out;
    var todo := src.Keys;
    while todo != {}
      invariant todo <= src.Keys
      invariant r.Keys == out.Keys + (src.Keys - todo)
      invariant forall k :: k in r ==> r[k] == if k in todo then At(out, k) else At(out, k) + At(src, k)
      decreases todo
    {
      var k :| k in todo;
      r := r[k := At(r, k) + src[k]];
      todo := todo - {k};
    }
  }

  method MergeIndex(a: Index, b: Index) returns (out: Index)
    ensures out == Merge(a, b)
  {
    var ines: map<nat, seq<InesRec>>, unif: map<string, seq<UnifRec>> := map[], map[];
    ines := Extend(ines, a.ines);
    unif := Extend(unif, a.unif);
    ines := Extend(ines, b.ines);
    unif := Extend(unif, b.unif);
    MergeFromNothing(a.ines, b.ines);
    MergeFromNothing(a.unif, b.unif);
    out := Index(a.scanned + b.scanned, a.unifSeen + b.unifSeen, ines, unif);
  }

  lemma MergeFromNothing<K, V>(a: map<K, seq<V>>, b: map<K, seq<V>>)
    ensures MergeLists(MergeLists(map[], a), b) == MergeLists(a, b)
  {
    var none: map<K, seq<V>> := map[];
    var m := MergeLists(none, a);
    forall k | k in a ensures m[k] == a[k] {
      assert At(none, k) + a[k] == a[k];
    }
    assert m == a;
  }

  // ---- Refinement of a full rescan ----

  lemma AddToMerge(boards: Boards, a: Index, b: Index, hit: Hit)
    ensures Add(boards, Merge(a, b), hit) == Merge(a, Add(boards, b, hit))
  {
    match hit
    case Ines(file, header, entry) =>
      if InesMapper(header).Some? {
        AppendToMerge(a.ines, b.ines, InesMapper(header).value, InesRec(FullName(file, entry), InesSubmapper(header)));
      }
    case Unif(file, board, entry) =>
      AppendToMerge(a.unif, b.unif, board, UnifRec(FullName(file, entry), BoardMapper(boards, board)));
  }

  lemma AppendToMerge<K, V>(a: map<K, seq<V>>, b: map<K, seq<V>>, k: K, v: V)
    ensures Appended(MergeLists(a, b), k, v) == MergeLists(a, Appended(b, k, v))
  {
    var l, r := Appended(MergeLists(a, b), k, v), MergeLists(a, Appended(b, k, v));
    assert l[k] == r[k] by {
      assert At(MergeLists(a, b), k) == At(a, k) + At(b, k);
      assert At(a, k) + At(b, k) + [v] == At(a, k) + (At(b, k) + [v]);
    }
    assert l.Keys == r.Keys by {
      MergedKeys(a, b);
      MergedKeys(a, Appended(b, k, v));
    }
    forall x | x in l && x != k ensures l[x] == r[x] {
      assert At(Appended(b, k, v), x) == At(b, x);
    }
    hide At, Appended, MergeLists;
  }

  /** Indexing two hit streams one after the other is merging their indexes. */
  lemma {:induction false} IndexOfConcat(boards: Boards, a: seq<Hit>, b: seq<Hit>)
    ensures IndexOf(boards, a + b) == Merge(IndexOf(boards, a), IndexOf(boards, b))
    decreases |b|
  {
    if b == [] {
      assert a + b == a;
      MergeWithEmpty(IndexOf(boards, a));
    } else {
      var init, last := b[..|b| - 1], b[|b| - 1];
      assert (a + b)[..|a + b| - 1] == a + init;
      IndexOfConcat(boards, a, init);
      AddToMerge(boards, IndexOf(boards, a), IndexOf(boards, init), last);
    }
  }

  lemma MergeWithEmpty(a: Index)
    ensures Merge(a, EMPTY) == a
  {
    MergeListsWithEmpty(a.ines);
    MergeListsWithEmpty(a.unif);
  }

  lemma MergeListsWithEmpty<K, V>(a: map<K, seq<V>>)
    ensures MergeLists(a, map[]) == a
  {
    var none: map<K, seq<V>> := map[];
    forall k | k in a ensures MergeLists(a, none)[k] == a[k] {
      assert a[k] + At(none, k) == a[k];
    }
    assert MergeLists(a, none).Keys == a.Keys;
  }

  lemma {:induction false} HitsConcat(a: seq<Root>, b: seq<Root>)
    ensures Hits(a + b) == Hits(a) + Hits(b)
    decreases |b|
  {
    hide DirHits;
    if b == [] {
      assert a + b == a;
    } else {
      var init, last := b[..|b| - 1], b[|b| - 1];
      assert (a + b)[..|a + b| - 1] == a + init && (a + b)[|a + b| - 1] == last;
      HitsConcat(a, init);
      var more := if last.None? then [] else DirHits(last.value);
      assert Hits(a) + Hits(init) + more == Hits(a) + (Hits(init) + more);
    }
  }

  /** Scanning `r1` then `r2` gives the same lists and counters as merging the two scans. */
  lemma ScanIsIncremental(boards: Boards, r1: seq<Root>, r2: seq<Root>)
    ensures Scan(boards, r1 + r2) == Merge(Scan(boards, r1), Scan(boards, r2))
  {
    HitsConcat(r1, r2);
    IndexOfConcat(boards, Hits(r1), Hits(r2));
  }

  /** The records of mapper `m` in a hit stream, in order: what the index holds, without it. */
  function RecordsOf(hits: seq<Hit>, m: nat): seq<InesRec> {
    if hits == [] then []
    else
      RecordsOf(hits[..|hits| - 1], m) +
      match hits[|hits| - 1]
      case Ines(file, header, entry) =>
        if InesMapper(header) == Some(m)
        then [InesRec(if entry.None? then file else file + ":" + entry.value, InesSubmapper(header))] else []
      case Unif(_, _, _) => []
  }

  function BoardRecords(boards: Boards, hits: seq<Hit>, board: string): seq<UnifRec> {
    if hits == [] then []
    else
      BoardRecords(boards, hits[..|hits| - 1], board) +
      match hits[|hits| - 1]
      case Ines(_, _, _) => []
      case Unif(file, b, entry) =>
        if b == board
        then [UnifRec(if entry.None? then file else file + ":" + entry.value,
                      if b in boards then Some(boards[b]) else None)]
        else []
  }

  function InesHits(hits: seq<Hit>): nat {
    if hits == [] then 0 else InesHits(hits[..|hits| - 1]) + if hits[|hits| - 1].Ines? then 1 else 0
  }

  lemma {:induction false} IndexHoldsMapper(boards: Boards, hits: seq<Hit>, m: nat)
    ensures var ines := IndexOf(boards, hits).ines;
      At(ines, m) == RecordsOf(hits, m) && (m in ines <==> RecordsOf(hits, m) != [])
    decreases |hits|
  {
    hide InesMapper, InesSubmapper;
    if hits != [] { IndexHoldsMapper(boards, hits[..|hits| - 1], m); }
  }

  lemma {:induction false} IndexHoldsBoard(boards: Boards, hits: seq<Hit>, b: string)
    ensures var unif := IndexOf(boards, hits).unif;
      At(unif, b) == BoardRecords(boards, hits, b) && (b in unif <==> BoardRecords(boards, hits, b) != [])
    decreases |hits|
  {
    hide InesMapper, InesSubmapper;
    if hits != [] { IndexHoldsBoard(boards, hits[..|hits| - 1], b); }
  }

  lemma {:induction false} CountersCount(boards: Boards, hits: seq<Hit>)
    ensures var idx := IndexOf(boards, hits); idx.scanned == InesHits(hits) && idx.scanned + idx.unifSeen == |hits|
    decreases |hits|
  {
    hide FullName, InesMapper, InesSubmapper, BoardMapper, Appended;
    if hits != [] { CountersCount(boards, hits[..|hits| - 1]); }
  }

  /** The index holds, under each mapper and each board, exactly its records in scan order; it has
      a key exactly for those that have records; and the counters count every hit, with or without
      a readable mapper. */
  lemma IndexHoldsEveryRecord(boards: Boards, hits: seq<Hit>)
    ensures var idx := IndexOf(boards, hits);
      && (forall m :: At(idx.ines, m) == RecordsOf(hits, m) && (m in idx.ines <==> RecordsOf(hits, m) != []))
      && (forall b :: At(idx.unif, b) == BoardRecords(boards, hits, b)
                  && (b in idx.unif <==> BoardRecords(boards, hits, b) != []))
      && idx.scanned == InesHits(hits) && idx.scanned + idx.unifSeen == |hits|
  {
    hide IndexOf, RecordsOf, BoardRecords, InesHits, At;
    var idx := IndexOf(boards, hits);
    CountersCount(boards, hits);
    forall m: nat ensures At(idx.ines, m) == RecordsOf(hits, m) && (m in idx.ines <==> RecordsOf(hits, m) != []) {
      IndexHoldsMapper(boards, hits, m);
    }
    forall b ensures At(idx.unif, b) == BoardRecords(boards, hits, b)
                 && (b in idx.unif <==> BoardRecords(boards, hits, b) != []) {
      IndexHoldsBoard(boards, hits, b);
    }
  }

  // ---- Loading the index ----

  /** An index as it is cached: with the roots it was made from. */
  datatype Cache = Cache(roots: seq<string>, index: Index)

  function NotIn(roots: seq<string>, known: seq<string>): (r: seq<string>)
    ensures forall x :: x in r <==> x in roots && x !in known
  {
    if roots == [] then []
    else
      assert forall x :: x in roots <==> x == roots[0] || x in roots[1..];
      if roots[0] in known then NotIn(roots[1..], known) else [roots[0]] + NotIn(roots[1..], known)
  }

  function Resolve(disk: string -> Root, roots: seq<string>): seq<Root> {
    seq(|roots|, i requires 0 <= i < |roots| => disk(roots[i]))
  }

  /** The cache is what a scan of its roots gives. */
  predicate IsScan(boards: Boards, disk: string -> Root, c: Cache) {
    c.index == Scan(boards, Resolve(disk, c.roots))
  }

  // ---- Up to order ----

  ghost predicate SameLists<K(!new), V>(a: map<K, seq<V>>, b: map<K, seq<V>>) {
    a.Keys == b.Keys && forall k :: multiset(At(a, k)) == multiset(At(b, k))
  }

  /** The same counters and, under every key, the same records in some order. */
  ghost predicate SameUpToOrder(a: Index, b: Index) {
    a.scanned == b.scanned && a.unifSeen == b.unifSeen && SameLists(a.ines, b.ines) && SameLists(a.unif, b.unif)
  }

  lemma MergedLists<K, V>(a: map<K, seq<V>>, b: map<K, seq<V>>, k: K)
    ensures multiset(At(MergeLists(a, b), k)) == multiset(At(a, k)) + multiset(At(b, k))
  {
    assert At(MergeLists(a, b), k) == At(a, k) + At(b, k);
  }

  lemma MergedKeys<K, V>(a: map<K, seq<V>>, b: map<K, seq<V>>)
    ensures MergeLists(a, b).Keys == a.Keys + b.Keys
  {
  }

  lemma SwapLists<K(!new), V>(a: map<K, seq<V>>, b: map<K, seq<V>>, c: map<K, seq<V>>, d: map<K, seq<V>>)
    requires SameLists(a, MergeLists(b, d))
    ensures SameLists(MergeLists(a, c), MergeLists(MergeLists(b, c), d))
  {
    hide MergeLists, At;
    MergedKeys(a, c);
    MergedKeys(b, d);
    MergedKeys(b, c);
    MergedKeys(MergeLists(b, c), d);
    forall k ensures multiset(At(MergeLists(a, c), k)) == multiset(At(MergeLists(MergeLists(b, c), d), k)) {
      MergedLists(a, c, k);
      MergedLists(b, d, k);
      MergedLists(b, c, k);
      MergedLists(MergeLists(b, c), d, k);
    }
  }

  /** The order of two merges does not matter up to order. */
  lemma SwapMerges(a: Index, b: Index, c: Index, d: Index)
    requires SameUpToOrder(a, Merge(b, d))
    ensures SameUpToOrder(Merge(a, c), Merge(Merge(b, c), d))
  {
    SwapLists(a.ines, b.ines, c.ines, d.ines);
    SwapLists(a.unif, b.unif, c.unif, d.unif);
  }

  /** The rest of a permutation of `a + [x]` around an `x`. */
  lemma TakeOut<T>(a: seq<T>, x: T, b: seq<T>) returns (p: seq<T>, q: seq<T>)
    requires multiset(a + [x]) == multiset(b)
    ensures b == p + [x] + q && multiset(a) == multiset(p + q)
  {
    assert x in multiset(b) by { assert x in multiset(a + [x]); }
    var n :| 0 <= n < |b| && b[n] == x;
    p, q := b[..n], b[n + 1..];
    assert b == p + [x] + q;
    assert multiset(a) + multiset{x} == multiset(p) + multiset{x} + multiset(q);
    assert multiset(a) == multiset(a) + multiset{x} - multiset{x};
    assert multiset(p) + multiset(q) == multiset(p) + multiset{x} + multiset(q) - multiset{x};
  }

  /** Scanning the same roots in another order finds the same records. */
  lemma {:induction false} ScanOrderIsFree(boards: Boards, a: seq<Root>, b: seq<Root>)
    requires multiset(a) == multiset(b)
    ensures SameUpToOrder(Scan(boards, a), Scan(boards, b))
    decreases |a|
  {
    hide Scan, SameUpToOrder;
    if a == [] {
      assert |multiset(b)| == |b|;
      Reflexive(Scan(boards, a));
    } else {
      var init, x := a[..|a| - 1], a[|a| - 1];
      assert a == init + [x];
      var p, q := TakeOut(init, x, b);
      ScanOrderIsFree(boards, init, p + q);
      ScanIsIncremental(boards, init, [x]);
      ScanIsIncremental(boards, p, q);
      ScanIsIncremental(boards, p, [x]);
      ScanIsIncremental(boards, p + [x], q);
      SwapMerges(Scan(boards, init), Scan(boards, p), Scan(boards, [x]), Scan(boards, q));
    }
  }

  lemma Reflexive(a: Index)
    ensures SameUpToOrder(a, a)
  {
  }

  /** A root listed twice is counted twice, so the result is that of its own roots, each once, if and
      only if nothing is found there. */
  lemma RepeatedRootIff(boards: Boards, x: Root)
    ensures SameUpToOrder(Scan(boards, [x, x]), Scan(boards, [x])) <==> Hits([x]) == []
  {
    ScanIsIncremental(boards, [x], [x]);
    assert [x] + [x] == [x, x];
    HitsConcat([x], [x]);
    CountersCount(boards, Hits([x]));
    CountersCount(boards, Hits([x, x]));
    if Hits([x]) == [] {
      assert Hits([x, x]) == [];
      Reflexive(Scan(boards, [x]));
    }
    hide IndexOf, Hits, SameLists;
  }

  ghost predicate NoRepeats(names: seq<string>) {
    forall i, j :: 0 <= i < j < |names| ==> names[i] != names[j]
  }

  lemma ResolvedAround(disk: string -> Root, p: seq<string>, x: string, q: seq<string>)
    ensures multiset(Resolve(disk, p + [x] + q)) == multiset(Resolve(disk, p + q)) + multiset{disk(x)}
  {
    assert Resolve(disk, p + [x] + q) == Resolve(disk, p) + [disk(x)] + Resolve(disk, q);
    assert Resolve(disk, p + q) == Resolve(disk, p) + Resolve(disk, q);
  }

  lemma {:induction false} ResolvedOnce(disk: string -> Root, a: seq<string>, b: seq<string>)
    requires multiset(a) == multiset(b)
    ensures multiset(Resolve(disk, a)) == multiset(Resolve(disk, b))
    decreases |a|
  {
    if a == [] {
      assert |multiset(b)| == |b|;
    } else {
      var init, x := a[..|a| - 1], a[|a| - 1];
      assert a == init + [x];
      var p, q := TakeOut(init, x, b);
      ResolvedOnce(disk, init, p + q);
      ResolvedAround(disk, init, x, []);
      ResolvedAround(disk, p, x, q);
      assert init + [x] + [] == a && Resolve(disk, init + []) == Resolve(disk, init) by { assert init + [] == init; }
    }
  }

  /** Two lists without repetitions of the same names are permutations of each other. */
  lemma SameNames(a: seq<string>, b: seq<string>)
    requires NoRepeats(a) && NoRepeats(b) && forall x :: x in a <==> x in b
    ensures multiset(a) == multiset(b)
  {
    OnceEach(a);
    OnceEach(b);
    assert forall x :: x in multiset(a) <==> x in a;
  }

  lemma {:induction false} OnceEach(a: seq<string>)
    requires NoRepeats(a)
    ensures forall x :: multiset(a)[x] == if x in a then 1 else 0
    decreases |a|
  {
    if a != [] {
      var init := a[..|a| - 1];
      assert a == init + [a[|a| - 1]];
      OnceEach(init);
    }
  }

  lemma {:induction false} NotInKeepsNoRepeats(roots: seq<string>, known: seq<string>)
    requires NoRepeats(roots) && NoRepeats(known)
    ensures NoRepeats(NotIn(roots, known)) && NoRepeats(known + NotIn(roots, known))
    decreases |roots|
  {
    if roots != [] {
      NotInKeepsNoRepeats(roots[1..], known);
      var rest := NotIn(roots[1..], known);
      assert roots[0] !in rest by { assert forall j :: 0 < j < |roots| ==> roots[j] != roots[0]; }
    }
    var extra := NotIn(roots, known);
    forall i, j | 0 <= i < j < |known + extra| ensures (known + extra)[i] != (known + extra)[j] {
      if i < |known| <= j { assert extra[j - |known|] in extra; }
    }
  }

  /** The merged index is, up to order, the scan of its own sorted roots. */
  lemma MergedIsOwnScan(boards: Boards, disk: string -> Root, known: seq<string>, roots: seq<string>,
                        names: seq<string>)
    requires NoRepeats(known) && NoRepeats(roots)
    requires Sorted(names) && forall x :: x in names <==> x in known + NotIn(roots, known)
    ensures SameUpToOrder(Scan(boards, Resolve(disk, known + NotIn(roots, known))), Scan(boards, Resolve(disk, names)))
  {
    NotInKeepsNoRepeats(roots, known);
    SortedDistinct(names);
    SameNames(known + NotIn(roots, known), names);
    ResolvedOnce(disk, known + NotIn(roots, known), names);
    ScanOrderIsFree(boards, Resolve(disk, known + NotIn(roots, known)), Resolve(disk, names));
  }

  // ---- The command's index ----

  /** Ascending and without repetitions. */
  method SortedUnion(a: seq<string>, b: seq<string>) returns (names: seq<string>)
    ensures Sorted(names) && forall x :: x in names <==> x in a || x in b
  {
    hide Sorted, Inserted;
    names := [];
    NothingSorted();
    var all := a + b;
    var n := 0;
    while n < |all|
      invariant 0 <= n <= |all|
      invariant Sorted(names) && forall x :: x in names <==> x in all[..n]
    {
      assert all[..n + 1] == all[..n] + [all[n]];
      if all[n] !in names {
        InsertedIsSorted(names, all[n]);
        names := Inserted(names, all[n]);
      }
      n := n + 1;
    }
    assert all[..n] == all;
  }

  /** Loading with a readable cache scans only the roots the cache does not know, and merges; only a
      full scan is written back. Without one, the library is scanned if the caller allows it.
      `loaded` is None when the command gives up, `saved` when no cache is written. */
  method LoadIndex(boards: Boards, disk: string -> Root, cache: Option<Cache>, refresh: bool, build: bool,
                   roots: seq<string>)
    returns (loaded: Option<Cache>, saved: Option<Cache>)
    ensures refresh || cache.None? ==>
      if build then loaded.Some? && loaded.value.roots == roots && IsScan(boards, disk, loaded.value) && saved == loaded
      else loaded == None && saved == None
    ensures !refresh && cache.Some? ==>
      && loaded.Some? && saved == None
      && (forall x :: x in loaded.value.roots <==> x in cache.value.roots || x in roots)
      && (NotIn(roots, cache.value.roots) == [] ==> loaded == cache)
      && (NotIn(roots, cache.value.roots) != [] ==> Sorted(loaded.value.roots))
    // A true cache loads to exactly the index a full rescan of its roots and the new ones would give.
    ensures !refresh && cache.Some? && IsScan(boards, disk, cache.value) ==>
      loaded.value.index == Scan(boards, Resolve(disk, cache.value.roots + NotIn(roots, cache.value.roots)))
    // Its lists keep that order though its roots are sorted, so it is the scan of its own roots up to order.
    ensures !refresh && cache.Some? && IsScan(boards, disk, cache.value)
            && NoRepeats(cache.value.roots) && NoRepeats(roots) ==>
      SameUpToOrder(loaded.value.index, Scan(boards, Resolve(disk, loaded.value.roots)))
  {
    if !refresh && cache.Some? {
      var known := cache.value.roots;
      var extra := NotIn(roots, known);
      assert Resolve(disk, known + extra) == Resolve(disk, known) + Resolve(disk, extra);
      ScanIsIncremental(boards, Resolve(disk, known), Resolve(disk, extra));
      if extra == [] {
        assert known + extra == known;
        Reflexive(cache.value.index);
        forall x | x in roots ensures x in known { assert x !in extra; }
        return cache, None;
      }
      var delta := ScanLibrary(boards, Resolve(disk, extra));
      var merged := MergeIndex(cache.value.index, delta);
      var names := SortedUnion(known, extra);
      if NoRepeats(known) && NoRepeats(roots) { MergedIsOwnScan(boards, disk, known, roots, names); }
      return Some(Cache(names, merged)), None;
    }
    if !build {
      return None, None;
    }
    var idx := ScanLibrary(boards, Resolve(disk, roots));
    loaded := Some(Cache(roots, idx));
    saved := loaded;
  }
}
