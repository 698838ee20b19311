/** Predicates, zone-map pruning and late materialization over one chunk. */
module BlitzReader {
  import opened Wrappers
  import opened Bytes
  import opened Cursor
  import opened BlitzFooter
  import opened BlitzChunks
  import opened Pages
  import opened Permutations
  import Lz4

  datatype Op = Gt | Lt | Ge | Le | Eq

  datatype Literal = Int(i: i64) | Str(s: Text)

  predicate Hit(v: i64, op: Op, l: i64) {
    match op
    case Gt => v > l
    case Lt => v < l
    case Ge => v >= l
    case Le => v <= l
    case Eq => v == l
  }

  /** Strings are compared for equality only; other combinations are a panic. */
  predicate Comparable(t: DataType, op: Op, lit: Literal) {
    (t == Int64 && lit.Int?) || (t == Utf8 && lit.Str? && op == Eq)
  }

  predicate RowMatches(col: Column, op: Op, lit: Literal, i: nat)
    requires i < Rows(col) && Comparable(TypeOf(col), op, lit)
  {
    match col
    case Ints(vals) => Hit(vals[i], op, lit.i)
    case Texts(strs) => strs[i] == lit.s
  }

  /** The rows below `n` that a filter over the decoded column keeps, in row order. */
  function Matching(col: Column, op: Op, lit: Literal, n: nat): seq<nat>
    requires n <= Rows(col) && Comparable(TypeOf(col), op, lit)
  {
    if n == 0 then [] else
    Matching(col, op, lit, n - 1) + if RowMatches(col, op, lit, n - 1) then [n - 1] else []
  }

  ghost predicate Increasing(sel: seq<nat>) {
    forall i, j :: 0 <= i < j < |sel| ==> sel[i] < sel[j]
  }

  /** A selection vector is strictly increasing and holds exactly the matching rows. */
  lemma {:induction false} MatchingExact(col: Column, op: Op, lit: Literal, n: nat)
    requires n <= Rows(col) && Comparable(TypeOf(col), op, lit)
    ensures var sel := Matching(col, op, lit, n);
            && Increasing(sel)
            && (forall i :: i in sel ==> i < n)
            && forall i: nat :: i < n ==> (i in sel <==> RowMatches(col, op, lit, i))
  {
    hide RowMatches;
    if n > 0 {
      MatchingExact(col, op, lit, n - 1);
      var prev := Matching(col, op, lit, n - 1);
      forall i | 0 <= i < |prev| ensures prev[i] < n - 1 {
        assert prev[i] in prev;
      }
    }
  }

  // ---- zone maps ----

  predicate ZonePrunes(min: i64, max: i64, op: Op, l: i64) {
    match op
    case Gt => max <= l
    case Ge => max < l
    case Lt => min >= l
    case Le => min > l
    case Eq => l < min || l > max
  }

  /** `rg_prunes`. */
  predicate ChunkPrunes(c: ChunkMeta, op: Op, lit: Literal) {
    match (c.dtype, lit)
    case (Int64, Int(l)) => ZonePrunes(c.minI, c.maxI, op, l)
    case (Utf8, Str(s)) => op == Eq && (Less(s, c.minS) || Less(c.maxS, s))
    case _ => false
  }

  /** A zone is pruned exactly if nothing between its bounds can match. */
  lemma ZonePrunesIff(min: i64, max: i64, op: Op, l: i64)
    requires min <= max
    ensures ZonePrunes(min, max, op, l) <==> forall v: i64 :: min <= v <= max ==> !Hit(v, op, l)
  {
    if !ZonePrunes(min, max, op, l) {
      var v := match op case Gt => max case Ge => max case Lt => min case Le => min case Eq => l;
      assert min <= v <= max && Hit(v, op, l);
    }
  }

  /** A row group is pruned exactly if its zone leaves no room for a match. */
  lemma ChunkPrunesIff(c: ChunkMeta, op: Op, lit: Literal)
    requires c.dtype == Int64 && lit.Int? ==> c.minI <= c.maxI
    ensures ChunkPrunes(c, op, lit) <==>
      || (c.dtype == Int64 && lit.Int? && forall v: i64 :: c.minI <= v <= c.maxI ==> !Hit(v, op, lit.i))
      || (c.dtype == Utf8 && lit.Str? && op == Eq && !(TextAtMost(c.minS, lit.s) && TextAtMost(lit.s, c.maxS)))
  {
    hide ZonePrunes, Less, TextAtMost, Hit;
    match lit {
      case Int(l) =>
        if c.minI <= c.maxI {
          ZonePrunesIff(c.minI, c.maxI, op, l);
        }
      case Str(s) =>
        LessIs(s, c.minS);
        LessIs(c.maxS, s);
    }
  }

  /** Pruning drops no matching value; for the range operators it drops every slice without one. */
  lemma ZonePrunesExactly(vals: seq<i64>, min: i64, max: i64, op: Op, l: i64)
    requires Zone(vals, min, max)
    ensures ZonePrunes(min, max, op, l) ==> forall v :: v in vals ==> !Hit(v, op, l)
    ensures vals != [] && op != Eq && (forall v :: v in vals ==> !Hit(v, op, l)) ==> ZonePrunes(min, max, op, l)
  {
  }

  lemma {:induction false} NoneMatching(col: Column, op: Op, lit: Literal, n: nat, m: nat)
    requires n <= m <= Rows(col) && Comparable(TypeOf(col), op, lit)
    requires forall i: nat :: n <= i < m ==> !RowMatches(col, op, lit, i)
    ensures Matching(col, op, lit, m) == Matching(col, op, lit, n)
    decreases m - n
  {
    hide RowMatches;
    if n < m {
      NoneMatching(col, op, lit, n, m - 1);
    }
  }

  /** A pruned chunk has no matching row. */
  lemma ChunkPrunesSound(file: seq<byte>, c: ChunkMeta, col: Column, op: Op, lit: Literal)
    requires ChunkHolds(file, c, col) && Comparable(c.dtype, op, lit) && ChunkPrunes(c, op, lit)
    ensures Matching(col, op, lit, Rows(col)) == []
  {
    hide IntPages, CodePages, DictHolds, Zone, Less, Hit;
    forall i: nat | i < Rows(col) ensures !RowMatches(col, op, lit, i) {
      match col {
        case Ints(vals) => ZonePrunesExactly(vals, c.minI, c.maxI, op, lit.i);
        case Texts(strs) =>
      }
    }
    NoneMatching(col, op, lit, 0, Rows(col));
  }

  // ---- one page against one predicate ----

  function PageHits(vals: seq<i64>, op: Op, l: i64, base: nat): seq<nat> {
    if vals == [] then [] else
    var n := |vals| - 1;
    PageHits(vals[..n], op, l, base) + if Hit(vals[n], op, l) then [base + n] else []
  }

  lemma {:induction false} PageHitsMatch(vals: seq<i64>, op: Op, l: i64, base: nat, end: nat)
    requires base <= end <= |vals|
    ensures Matching(Ints(vals), op, Int(l), end)
         == Matching(Ints(vals), op, Int(l), base) + PageHits(vals[base..end], op, l, base)
    decreases end
  {
    hide Hit;
    if base < end {
      PageHitsMatch(vals, op, l, base, end - 1);
      assert vals[base..end][..end - 1 - base] == vals[base..end - 1];
    }
  }

  /** Code `i` of a code page; `chunks_exact(4)` ignores a trailing partial code. */
  function CodeAt(raw: seq<byte>, i: nat): nat
    requires 4 * i + 4 <= |raw|
  {
    FromLE(raw[4 * i..4 * i + 4])
  }

  function CodeHits(raw: seq<byte>, n: nat, code: nat, base: nat): seq<nat>
    requires 4 * n <= |raw|
  {
    if n == 0 then [] else
    CodeHits(raw, n - 1, code, base) + if CodeAt(raw, n - 1) == code then [base + n - 1] else []
  }

  lemma {:induction false} CodeAtOf(codes: seq<nat>, i: nat)
    requires i < |codes|
    ensures |All(U32, codes)| == 4 * |codes| && CodeAt(All(U32, codes), i) == codes[i] % TWO_32
    decreases |codes|
  {
    hide LE, FromLE;
    U32RoundTrip(codes[0]);
    var raw, rest := All(U32, codes), All(U32, codes[1..]);
    if i == 0 {
      if |codes| > 1 {
        CodeAtOf(codes[1..], 0);
      }
      assert raw[..4] == U32(codes[0]);
    } else {
      CodeAtOf(codes[1..], i - 1);
      assert raw[4 * i..4 * i + 4] == rest[4 * (i - 1)..4 * (i - 1) + 4];
    }
  }

  /** A stored code is `code` exactly on the rows that hold `s`. */
  ghost predicate CodeMeans(strs: seq<Text>, codes: seq<nat>, s: Text, code: nat) {
    && |codes| == |strs|
    && forall i :: 0 <= i < |strs| ==> (codes[i] % TWO_32 == code <==> strs[i] == s)
  }

  lemma DistinctCodes(strs: seq<Text>, code: nat)
    requires |Dict(strs)| < TWO_32 && code < |Dict(strs)|
    ensures CodeMeans(strs, Codes(Dict(strs), strs), Dict(strs)[code], code)
  {
    hide Dict, Codes;
    var d, codes := Dict(strs), Codes(Dict(strs), strs);
    forall i | 0 <= i < |strs| ensures codes[i] % TWO_32 == code <==> strs[i] == d[code] {
      var c := codes[i];
      assert c < code ==> d[c] != d[code];
      assert code < c ==> d[code] != d[c];
    }
  }

  lemma {:induction false} CodeHitsMatch(strs: seq<Text>, codes: seq<nat>, s: Text, code: nat, base: nat, n: nat, raw: seq<byte>)
    requires CodeMeans(strs, codes, s, code) && base + n <= |strs|
    requires 4 * n <= |raw| && forall i :: 0 <= i < n ==> CodeAt(raw, i) == codes[base + i] % TWO_32
    ensures Matching(Texts(strs), Eq, Str(s), base + n) == Matching(Texts(strs), Eq, Str(s), base) + CodeHits(raw, n, code, base)
    decreases n
  {
    hide CodeAt;
    if n > 0 {
      CodeHitsMatch(strs, codes, s, code, base, n - 1, raw);
    }
  }

  method FilterValues(sel: seq<nat>, vals: seq<i64>, op: Op, l: i64, base: nat) returns (r: seq<nat>)
    ensures r == sel + PageHits(vals, op, l, base)
  {
    r := sel;
    for i := 0 to |vals|
      invariant r == sel + PageHits(vals[..i], op, l, base)
    {
      assert vals[..i + 1][..i] == vals[..i];
      if Hit(vals[i], op, l) {
        r := r + [base + i];
      }
    }
    assert vals[..|vals|] == vals;
  }

  method FilterCodes(sel: seq<nat>, raw: seq<byte>, code: nat, base: nat) returns (r: seq<nat>)
    ensures r == sel + CodeHits(raw, |raw| / 4, code, base)
  {
    hide CodeAt;
    r := sel;
    for i := 0 to |raw| / 4
      invariant r == sel + CodeHits(raw, i, code, base)
    {
      if CodeAt(raw, i) == code {
        r := r + [base + i];
      }
    }
  }

  /** `read_at`. */
  function ReadAt(file: seq<byte>, off: nat, len: nat): Option<seq<byte>> {
    if off + len > |file| then None else Some(file[off..off + len])
  }

  // ---- eval_pred ----

  lemma IntPageMatches(file: seq<byte>, pages: seq<PageMeta>, k: nat, vals: seq<i64>, op: Op, l: i64)
    requires IntPages(file, pages, vals) && k < |pages|
    ensures var n, n' := Start(|vals|, k), Start(|vals|, k + 1);
            && n' == n + pages[k].rows
            && ReadAt(file, pages[k].offset, pages[k].compLen).Some?
            && DecodePage(ReadAt(file, pages[k].offset, pages[k].compLen).value, pages[k].rows) == Some(PageOf(vals, k))
            && Matching(Ints(vals), op, Int(l), n')
               == Matching(Ints(vals), op, Int(l), n)
                  + if ZonePrunes(pages[k].min, pages[k].max, op, l) then [] else PageHits(PageOf(vals, k), op, l, n)
  {
    hide DecodePage, Matching, PageHits, Zone, ZonePrunes, Hit;
    var n, n' := Start(|vals|, k), Start(|vals|, k + 1);
    PageHitsMatch(vals, op, l, n, n');
    ZonePrunesExactly(PageOf(vals, k), pages[k].min, pages[k].max, op, l);
    if ZonePrunes(pages[k].min, pages[k].max, op, l) {
      forall i: nat | n <= i < n' ensures !RowMatches(Ints(vals), op, Int(l), i) {
        assert vals[i] == PageOf(vals, k)[i - n];
      }
      NoneMatching(Ints(vals), op, Int(l), n, n');
    }
  }

  lemma CodePageMatches(file: seq<byte>, pages: seq<PageMeta>, k: nat, strs: seq<Text>, code: nat)
    requires |Dict(strs)| < TWO_32 && code < |Dict(strs)|
    requires CodePages(file, pages, Codes(Dict(strs), strs)) && k < |pages|
    ensures var n, n', lit := Start(|strs|, k), Start(|strs|, k + 1), Str(Dict(strs)[code]);
            && n' == n + pages[k].rows
            && ReadAt(file, pages[k].offset, pages[k].compLen).Some?
            && var raw := Lz4.Decompressed(ReadAt(file, pages[k].offset, pages[k].compLen).value);
            && raw.Ok?
            && Matching(Texts(strs), Eq, lit, n')
               == Matching(Texts(strs), Eq, lit, n) + CodeHits(raw.value, |raw.value| / 4, code, n)
  {
    hide Lz4.Decompressed, Matching, CodeHits, Dict, Codes, All, PageCount, CodeAt, CodeMeans;
    var n, n', codes := Start(|strs|, k), Start(|strs|, k + 1), Codes(Dict(strs), strs);
    assert CodePage(file, pages[k], PageOf(codes, k));
    var part := PageOf(codes, k);
    var raw := All(U32, part);
    CodesSize(part);
    forall i | 0 <= i < |part| ensures CodeAt(raw, i) == codes[n + i] % TWO_32 {
      CodeAtOf(part, i);
    }
    DistinctCodes(strs, code);
    CodeHitsMatch(strs, codes, Dict(strs)[code], code, n, |raw| / 4, raw);
  }

  lemma CodesSize(codes: seq<nat>)
    ensures |All(U32, codes)| == 4 * |codes|
  {
    if codes != [] {
      CodeAtOf(codes, 0);
    }
  }

  /** A chunk the reader can scan without its 32-bit row index overflowing. */
  ghost predicate Readable(file: seq<byte>, c: ChunkMeta, col: Column) {
    ChunkHolds(file, c, col) && Rows(col) < TWO_32
  }

  method EvalInts(file: seq<byte>, c: ChunkMeta, op: Op, l: i64, ghost vals: seq<i64>) returns (r: Option<seq<nat>>)
    ensures Readable(file, c, Ints(vals)) ==> r == Some(Matching(Ints(vals), op, Int(l), |vals|))
  {
    hide ZonePrunes, DecodePage, Matching, PageHits, IntPages, Start;
    var sel: seq<nat> := [];
    var base: nat := 0;
    ghost var held := Readable(file, c, Ints(vals));
    FirstRow(Ints(vals), op, Int(l));
    for k := 0 to |c.pages|
      invariant held ==> base == Start(|vals|, k) && sel == Matching(Ints(vals), op, Int(l), base)
    {
      var p := c.pages[k];
      if held {
        IntPageMatches(file, c.pages, k, vals, op, l);
      }
      if !ZonePrunes(p.min, p.max, op, l) {
        var comp := ReadAt(file, p.offset, p.compLen);
        if comp.None? {
          return None;
        }
        var decoded := ReadPage(comp.value, p.rows);
        if decoded.None? {
          return None;
        }
        sel := FilterValues(sel, decoded.value, op, l, base);
      }
      base := base + p.rows;
      if base >= TWO_32 {
        return None;
      }
    }
    if held {
      LastRow(file, c, Ints(vals));
    }
    r := Some(sel);
  }

  lemma FirstRow(col: Column, op: Op, lit: Literal)
    ensures Comparable(TypeOf(col), op, lit) ==> Matching(col, op, lit, 0) == []
    ensures Start(Rows(col), 0) == 0
  {
  }

  lemma LastRow(file: seq<byte>, c: ChunkMeta, col: Column)
    requires ChunkHolds(file, c, col)
    ensures Start(Rows(col), |c.pages|) == Rows(col)
  {
    hide DictHolds, IntPage, CodePage, Zone, TextZone;
    AllPages(Rows(col));
  }

  lemma DictBound(file: seq<byte>, c: ChunkMeta, d: seq<Text>)
    requires DictHolds(file, c, d)
    ensures |d| < TWO_32
  {
  }

  lemma NotInDict(strs: seq<Text>, s: Text)
    requires s !in Dict(strs)
    ensures Matching(Texts(strs), Eq, Str(s), |strs|) == []
  {
    hide Dict;
    NoneMatching(Texts(strs), Eq, Str(s), 0, |strs|);
  }

  /** `read_dict`. */
  method LoadDict(file: seq<byte>, c: ChunkMeta, ghost d: seq<Text>) returns (r: Option<seq<Text>>)
    ensures DictHolds(file, c, d) ==> r == Some(d)
  {
    hide Lz4.Decompressed, Times, R32, RS;
    var comp := ReadAt(file, c.dictOff, c.dictLen);
    if comp.None? {
      return None;
    }
    var raw := Lz4.Decompress(comp.value);
    if raw.Err? {
      return None;
    }
    var n := R32(raw.value, 0);
    if n.None? {
      return None;
    }
    var read := GetAll(RS, n.value.0, raw.value, n.value.1);
    if read.None? {
      return None;
    }
    r := Some(read.value.0);
  }

  method Position(d: seq<Text>, s: Text) returns (r: Option<nat>)
    ensures match r
            case None => s !in d
            case Some(i) => i < |d| && d[i] == s
  {
    for i := 0 to |d|
      invariant s !in d[..i]
    {
      if d[i] == s {
        return Some(i);
      }
      assert d[..i + 1] == d[..i] + [d[i]];
    }
    assert d[..|d|] == d;
    r := None;
  }

  method EvalTexts(file: seq<byte>, c: ChunkMeta, s: Text, ghost strs: seq<Text>) returns (r: Option<seq<nat>>)
    ensures Readable(file, c, Texts(strs)) ==> r == Some(Matching(Texts(strs), Eq, Str(s), |strs|))
  {
    hide Matching, CodeHits, CodePages, Start, Dict, Codes, DictHolds, Lz4.Decompressed, ReadDict;
    ghost var held := Readable(file, c, Texts(strs));
    var dict := LoadDict(file, c, Dict(strs));
    if dict.None? {
      return None;
    }
    var code := Position(dict.value, s);
    if code.None? {
      // the value is not in the dictionary: the whole chunk is pruned
      if held {
        NotInDict(strs, s);
      }
      return Some([]);
    }
    var sel: seq<nat> := [];
    var base: nat := 0;
    FirstRow(Texts(strs), Eq, Str(s));
    for k := 0 to |c.pages|
      invariant held ==> base == Start(|strs|, k) && sel == Matching(Texts(strs), Eq, Str(s), base)
    {
      var p := c.pages[k];
      if held {
        DictBound(file, c, Dict(strs));
        CodePageMatches(file, c.pages, k, strs, code.value);
      }
      var comp := ReadAt(file, p.offset, p.compLen);
      if comp.None? {
        return None;
      }
      var raw := Lz4.Decompress(comp.value);
      if raw.Err? {
        return None;
      }
      sel := FilterCodes(sel, raw.value, code.value, base);
      base := base + p.rows;
      if base >= TWO_32 {
        return None;
      }
    }
    if held {
      LastRow(file, c, Texts(strs));
    }
    r := Some(sel);
  }

  /** `eval_pred`: on a readable chunk, exactly the rows that a filter over the decoded column keeps. */
  method EvalPred(file: seq<byte>, c: ChunkMeta, op: Op, lit: Literal, ghost col: Column) returns (r: Option<seq<nat>>)
    ensures Readable(file, c, col) ==>
      r == if Comparable(c.dtype, op, lit) then Some(Matching(col, op, lit, Rows(col))) else None
  {
    hide ChunkHolds, Matching;
    ghost var held := Readable(file, c, col);
    if held {
      HeldType(file, c, col);
    }
    match (c.dtype, lit) {
      case (Int64, Int(l)) =>
        r := EvalInts(file, c, op, l, if held then col.ints else []);
      case (Utf8, Str(s)) =>
        if op != Eq {
          return None;
        }
        r := EvalTexts(file, c, s, if held then col.texts else []);
      case _ =>
        r := None;
    }
  }

  lemma HeldType(file: seq<byte>, c: ChunkMeta, col: Column)
    requires ChunkHolds(file, c, col)
    ensures TypeOf(col) == c.dtype
  {
  }

  // ---- gather ----

  ghost predicate Ascending(sel: seq<nat>) {
    forall i, j :: 0 <= i < j < |sel| ==> sel[i] <= sel[j]
  }

  /** How many entries, from the front, are below `end`. */
  function Below(sel: seq<nat>, end: nat): (m: nat)
    ensures m <= |sel| && forall i :: 0 <= i < m ==> sel[i] < end
  {
    if sel == [] || sel[0] >= end then 0 else 1 + Below(sel[1..], end)
  }

  /** The selected values, in the order of the selection vector. */
  function Pick<T>(xs: seq<T>, sel: seq<nat>): (r: seq<T>)
    requires forall i :: 0 <= i < |sel| ==> sel[i] < |xs|
    ensures |r| == |sel| && forall i :: 0 <= i < |r| ==> r[i] == xs[sel[i]]
  {
    if sel == [] then [] else [xs[sel[0]]] + Pick(xs, sel[1..])
  }

  function PickColumn(col: Column, sel: seq<nat>): Column
    requires forall i :: 0 <= i < |sel| ==> sel[i] < Rows(col)
  {
    match col
    case Ints(vals) => assert Rows(col) == |vals|; Ints(Pick(vals, sel))
    case Texts(strs) => assert Rows(col) == |strs|; Texts(Pick(strs, sel))
  }

  /** The cursor moves over the entries of a page: those below its end. */
  method Advance(sel: seq<nat>, start: nat, end: nat) returns (si: nat)
    requires start <= |sel|
    ensures si == start + Below(sel[start..], end)
  {
    si := start;
    while si < |sel| && sel[si] < end
      invariant start <= si <= |sel|
      invariant start + Below(sel[start..], end) == si + Below(sel[si..], end)
    {
      assert sel[si..][1..] == sel[si + 1..];
      si := si + 1;
    }
  }

  lemma {:induction false} BelowSplits(sel: seq<nat>, base: nat, end: nat)
    requires base <= end
    ensures Below(sel, base) + Below(sel[Below(sel, base)..], end) == Below(sel, end)
  {
    if sel != [] && sel[0] < base {
      BelowSplits(sel[1..], base, end);
      assert sel[1..][Below(sel[1..], base)..] == sel[Below(sel, base)..];
    } else {
      assert sel[0..] == sel;
    }
  }

  lemma {:induction false} AboveBase(sel: seq<nat>, base: nat, i: nat)
    requires Ascending(sel) && Below(sel, base) <= i < |sel|
    ensures sel[i] >= base
  {
    if sel[0] < base {
      AboveBase(sel[1..], base, i - 1);
    }
  }

  /** The selected rows of one decoded page; `None` is the panic on a row outside it. */
  method TakeValues<T>(vals: seq<T>, part: seq<nat>, base: nat) returns (r: Option<seq<T>>)
    ensures r.None? ==> exists s :: s in part && !(base <= s < base + |vals|)
    ensures r.Some? ==> |r.value| == |part|
    ensures r.Some? ==> forall i :: 0 <= i < |part| ==> base <= part[i] < base + |vals| && r.value[i] == vals[part[i] - base]
  {
    var got := [];
    for i := 0 to |part|
      invariant |got| == i
      invariant forall j :: 0 <= j < i ==> base <= part[j] < base + |vals| && got[j] == vals[part[j] - base]
    {
      var s := part[i];
      if s < base || s - base >= |vals| {
        assert s in part;
        return None;
      }
      got := got + [vals[s - base]];
    }
    r := Some(got);
  }

  /** Cursor and output after the pages below `base`. */
  ghost predicate Gathered<T>(xs: seq<T>, sel: seq<nat>, base: nat, si: nat, out: seq<T>) {
    && base <= |xs| && si == Below(sel, base) && |out| == si
    && forall i :: 0 <= i < si ==> out[i] == xs[sel[i]]
  }

  lemma GatheredNext<T>(xs: seq<T>, sel: seq<nat>, base: nat, end: nat, si: nat, si': nat, out: seq<T>, got: seq<T>)
    requires Ascending(sel) && Gathered(xs, sel, base, si, out) && base <= end <= |xs|
    requires si' == si + Below(sel[si..], end) && |got| == si' - si
    requires forall i :: 0 <= i < |got| ==> base <= sel[si..si'][i] < end && got[i] == xs[base..end][sel[si..si'][i] - base]
    ensures Gathered(xs, sel, end, si', out + got)
  {
    BelowSplits(sel, base, end);
    forall i | si <= i < si' ensures (out + got)[i] == xs[sel[i]] {
      assert sel[si..si'][i - si] == sel[i];
    }
  }

  /** Every entry the cursor passes lies in the page. */
  lemma InPage(sel: seq<nat>, base: nat, end: nat, si: nat, si': nat)
    requires Ascending(sel) && si == Below(sel, base) && base <= end && si' == si + Below(sel[si..], end)
    ensures forall s :: s in sel[si..si'] ==> base <= s < end
  {
    forall i | si <= i < si' ensures base <= sel[i] < end {
      AboveBase(sel, base, i);
      assert sel[i] == sel[si..][i - si];
    }
  }

  method GatherInts(file: seq<byte>, c: ChunkMeta, sel: seq<nat>, ghost vals: seq<i64>) returns (r: Option<seq<i64>>)
    ensures Readable(file, c, Ints(vals)) && Ascending(sel) ==>
      r.Some? && Gathered(vals, sel, |vals|, |r.value|, r.value)
  {
    hide DecodePage, IntPages, IntPage, Start, Ascending, Gathered, Below, ChunkHolds;
    ghost var held := Readable(file, c, Ints(vals)) && Ascending(sel);
    var out: seq<i64> := [];
    var si: nat, base: nat := 0, 0;
    NothingGathered(vals, sel);
    for k := 0 to |c.pages|
      invariant si <= |sel|
      invariant held ==> base == Start(|vals|, k) && Gathered(vals, sel, base, si, out)
    {
      var p := c.pages[k];
      var end := base + p.rows;
      if end >= TWO_32 {
        if held {
          IntPageHeld(file, c, k, vals);
        }
        return None;
      }
      var si' := Advance(sel, si, end);
      var got: seq<i64> := [];
      if held {
        IntPageHeld(file, c, k, vals);
        GatheredAt(vals, sel, base, si, out);
        InPage(sel, base, end, si, si');
      }
      if si' > si {
        var comp := ReadAt(file, p.offset, p.compLen);
        if comp.None? {
          return None;
        }
        var decoded := ReadPage(comp.value, p.rows);
        if decoded.None? {
          return None;
        }
        var taken := TakeValues(decoded.value, sel[si..si'], base);
        if taken.None? {
          return None;
        }
        got := taken.value;
      }
      if held {
        GatheredNext(vals, sel, base, end, si, si', out, got);
      }
      out, si, base := out + got, si', end;
    }
    if held {
      LastRow(file, c, Ints(vals));
      GatheredAt(vals, sel, base, si, out);
    }
    r := Some(out);
  }

  lemma NothingGathered<T>(xs: seq<T>, sel: seq<nat>)
    ensures Gathered(xs, sel, 0, 0, []) && Start(|xs|, 0) == 0
  {
  }

  lemma GatheredAt<T>(xs: seq<T>, sel: seq<nat>, base: nat, si: nat, out: seq<T>)
    requires Gathered(xs, sel, base, si, out)
    ensures si == Below(sel, base) && |out| == si
  {
  }

  lemma IntPageHeld(file: seq<byte>, c: ChunkMeta, k: nat, vals: seq<i64>)
    requires Readable(file, c, Ints(vals)) && k < |c.pages|
    ensures var p, n, n' := c.pages[k], Start(|vals|, k), Start(|vals|, k + 1);
            && n' == n + p.rows && n' < TWO_32
            && ReadAt(file, p.offset, p.compLen).Some?
            && DecodePage(ReadAt(file, p.offset, p.compLen).value, p.rows) == Some(vals[n..n'])
  {
    hide DecodePage, Zone;
    assert IntPage(file, c.pages[k], PageOf(vals, k));
  }

  /** The codes of one page, looked up in the dictionary. */
  method TakeTexts(raw: seq<byte>, dict: seq<Text>, part: seq<nat>, base: nat) returns (r: Option<seq<Text>>)
    ensures r.None? ==> exists s :: s in part && !TakesText(raw, dict, s, base)
    ensures r.Some? ==> |r.value| == |part|
    ensures r.Some? ==> forall i :: 0 <= i < |part| ==> TakesText(raw, dict, part[i], base) && r.value[i] == dict[CodeAt(raw, part[i] - base)]
  {
    hide CodeAt;
    var got := [];
    for i := 0 to |part|
      invariant |got| == i
      invariant forall j :: 0 <= j < i ==> TakesText(raw, dict, part[j], base) && got[j] == dict[CodeAt(raw, part[j] - base)]
    {
      var s := part[i];
      if !TakesText(raw, dict, s, base) {
        assert s in part;
        return None;
      }
      got := got + [dict[CodeAt(raw, s - base)]];
    }
    r := Some(got);
  }

  /** Row `s` of a code page starting at row `base` can be looked up without a panic. */
  predicate TakesText(raw: seq<byte>, dict: seq<Text>, s: nat, base: nat) {
    base <= s && 4 * (s - base) + 4 <= |raw| && CodeAt(raw, s - base) < |dict|
  }

  /** A code page, looked up in the dictionary, is the slice it was written from. */
  ghost predicate DecodesTo(raw: seq<byte>, dict: seq<Text>, vals: seq<Text>) {
    && |raw| == 4 * |vals|
    && forall j :: 0 <= j < |vals| ==> CodeAt(raw, j) < |dict| && dict[CodeAt(raw, j)] == vals[j]
  }

  lemma CodePageHeld(file: seq<byte>, c: ChunkMeta, k: nat, strs: seq<Text>)
    requires Readable(file, c, Texts(strs)) && k < |c.pages|
    ensures var p, n, n' := c.pages[k], Start(|strs|, k), Start(|strs|, k + 1);
            && n' == n + p.rows && n' < TWO_32
            && ReadAt(file, p.offset, p.compLen).Some?
            && var raw := Lz4.Decompressed(ReadAt(file, p.offset, p.compLen).value);
            && raw.Ok? && DecodesTo(raw.value, Dict(strs), strs[n..n'])
  {
    hide Lz4.Decompressed, Dict, Codes, All, DecodesTo, TextZone, DictHolds, PageCount;
    var n, n', codes := Start(|strs|, k), Start(|strs|, k + 1), Codes(Dict(strs), strs);
    assert CodePage(file, c.pages[k], PageOf(codes, k));
    DictBound(file, c, Dict(strs));
    CodesDecode(PageOf(codes, k), Dict(strs), strs[n..n']);
  }

  lemma CodesDecode(codes: seq<nat>, dict: seq<Text>, vals: seq<Text>)
    requires |codes| == |vals| && |dict| < TWO_32
    requires forall i :: 0 <= i < |codes| ==> codes[i] < |dict| && dict[codes[i]] == vals[i]
    ensures DecodesTo(All(U32, codes), dict, vals)
  {
    hide All, CodeAt;
    CodesSize(codes);
    forall i | 0 <= i < |codes| ensures CodeAt(All(U32, codes), i) == codes[i] {
      CodeAtOf(codes, i);
    }
  }

  lemma TextsTaken(raw: seq<byte>, dict: seq<Text>, vals: seq<Text>, part: seq<nat>, base: nat)
    requires DecodesTo(raw, dict, vals) && forall s :: s in part ==> base <= s < base + |vals|
    ensures forall s :: s in part ==> TakesText(raw, dict, s, base)
    ensures forall i :: 0 <= i < |part| ==>
      base <= part[i] < base + |vals| && TakesText(raw, dict, part[i], base) && dict[CodeAt(raw, part[i] - base)] == vals[part[i] - base]
  {
    hide CodeAt;
    forall i | 0 <= i < |part| ensures base <= part[i] < base + |vals| {
      assert part[i] in part;
    }
  }

  method GatherTexts(file: seq<byte>, c: ChunkMeta, sel: seq<nat>, ghost strs: seq<Text>) returns (r: Option<seq<Text>>)
    ensures Readable(file, c, Texts(strs)) && Ascending(sel) ==>
      r.Some? && Gathered(strs, sel, |strs|, |r.value|, r.value)
  {
    hide Lz4.Decompressed, DictHolds, CodePages, CodePage, Start, Ascending, Gathered, Below, ChunkHolds, TakesText, DecodesTo, Dict, CodeAt;
    ghost var held := Readable(file, c, Texts(strs)) && Ascending(sel);
    var dict := LoadDict(file, c, Dict(strs));
    if held {
      HeldDict(file, c, strs);
    }
    if dict.None? {
      return None;
    }
    var out: seq<Text> := [];
    var si: nat, base: nat := 0, 0;
    NothingGathered(strs, sel);
    for k := 0 to |c.pages|
      invariant si <= |sel|
      invariant held ==> base == Start(|strs|, k) && Gathered(strs, sel, base, si, out)
    {
      var p := c.pages[k];
      var end := base + p.rows;
      if held {
        CodePageHeld(file, c, k, strs);
        GatheredAt(strs, sel, base, si, out);
      }
      if end >= TWO_32 {
        return None;
      }
      var si' := Advance(sel, si, end);
      var got: seq<Text> := [];
      if held {
        InPage(sel, base, end, si, si');
      }
      if si' > si {
        var comp := ReadAt(file, p.offset, p.compLen);
        if comp.None? {
          return None;
        }
        var raw := Lz4.Decompress(comp.value);
        if raw.Err? {
          return None;
        }
        if held {
          TextsTaken(raw.value, dict.value, strs[base..end], sel[si..si'], base);
        }
        var taken := TakeTexts(raw.value, dict.value, sel[si..si'], base);
        if taken.None? {
          return None;
        }
        got := taken.value;
      }
      if held {
        GatheredNext(strs, sel, base, end, si, si', out, got);
      }
      out, si, base := out + got, si', end;
    }
    if held {
      LastRow(file, c, Texts(strs));
      GatheredAt(strs, sel, base, si, out);
    }
    r := Some(out);
  }

  lemma HeldDict(file: seq<byte>, c: ChunkMeta, strs: seq<Text>)
    requires ChunkHolds(file, c, Texts(strs))
    ensures DictHolds(file, c, Dict(strs))
  {
  }

  lemma GatheredIsPick<T>(xs: seq<T>, sel: seq<nat>, si: nat, out: seq<T>)
    requires Gathered(xs, sel, |xs|, si, out)
    ensures out == Pick(xs, sel[..Below(sel, |xs|)])
  {
  }

  /** `gather`: the selected values of the rows the chunk has, in the order of the selection vector. */
  method Gather(file: seq<byte>, c: ChunkMeta, sel: seq<nat>, ghost col: Column) returns (r: Option<Column>)
    ensures Readable(file, c, col) && Ascending(sel) ==> r == Some(PickColumn(col, sel[..Below(sel, Rows(col))]))
  {
    hide ChunkHolds, Pick, Below, Gathered;
    ghost var held := Readable(file, c, col);
    if held {
      HeldType(file, c, col);
    }
    if c.dtype == Int64 {
      var got := GatherInts(file, c, sel, if held then col.ints else []);
      if got.None? {
        return None;
      }
      if held && Ascending(sel) {
        GatheredIsPick(col.ints, sel, |got.value|, got.value);
      }
      r := Some(Ints(got.value));
    } else {
      var got := GatherTexts(file, c, sel, if held then col.texts else []);
      if got.None? {
        return None;
      }
      if held && Ascending(sel) {
        GatheredIsPick(col.texts, sel, |got.value|, got.value);
      }
      r := Some(Texts(got.value));
    }
  }

  lemma {:induction false} BelowRange(sel: seq<nat>, from: nat, end: nat)
    requires forall i :: 0 <= i < |sel| ==> sel[i] == from + i
    ensures Below(sel, end) == if end <= from then 0 else Lz4.Min(|sel|, end - from)
    decreases |sel|
  {
    if sel != [] && sel[0] < end {
      BelowRange(sel[1..], from + 1, end);
    }
  }

  function Prefix(col: Column, n: nat): Column
    requires n <= Rows(col)
  {
    match col
    case Ints(vals) => Ints(vals[..n])
    case Texts(strs) => Texts(strs[..n])
  }

  /** `read_chunk`: the whole column, or its first `rows` values when the row group says it has fewer. */
  method ReadChunk(file: seq<byte>, rows: u64, c: ChunkMeta, ghost col: Column) returns (r: Option<Column>)
    ensures Readable(file, c, col) ==> r == Some(Prefix(col, Lz4.Min(rows % TWO_32, Rows(col))))
  {
    hide Readable;
    var sel := Range(rows % TWO_32);
    r := Gather(file, c, sel, col);
    if Readable(file, c, col) {
      BelowRange(sel, 0, Rows(col));
      PickPrefix(col, sel, Below(sel, Rows(col)));
    }
  }

  lemma PickPrefix(col: Column, sel: seq<nat>, n: nat)
    requires n <= |sel| && n <= Rows(col) && forall i :: 0 <= i < n ==> sel[i] == i
    ensures PickColumn(col, sel[..n]) == Prefix(col, n)
  {
    match col {
      case Ints(vals) => assert Pick(vals, sel[..n]) == vals[..n];
      case Texts(strs) => assert Pick(strs, sel[..n]) == strs[..n];
    }
  }
}
