/** What it means for the pages, the dictionaries and the zone maps of a file to hold a column. */
module BlitzChunks {
  import opened Wrappers
  import opened Bytes
  import opened Cursor
  import opened BlitzFooter
  import Lz4
  import opened Pages

  const I64_MAX: i64 := 0x7FFF_FFFF_FFFF_FFFF
  const I64_MIN: i64 := -0x8000_0000_0000_0000

  datatype Column = Ints(ints: seq<i64>) | Texts(texts: seq<Text>)

  function Rows(col: Column): nat {
    match col
    case Ints(v) => |v|
    case Texts(v) => |v|
  }

  function TypeOf(col: Column): DataType {
    if col.Ints? then Int64 else Utf8
  }

  // ---- pages of 8192 rows ----

  function PageCount(n: nat): nat {
    (n + PAGE_ROWS - 1) / PAGE_ROWS
  }

  /** The first row of page `k` among `n` rows. */
  function Start(n: nat, k: nat): (s: nat)
    ensures s <= n
  {
    Lz4.Min(k * PAGE_ROWS, n)
  }

  function PageOf<T>(xs: seq<T>, k: nat): seq<T> {
    xs[Start(|xs|, k)..Start(|xs|, k + 1)]
  }

  /** The exact least and greatest value; the identities of min and max when there is none. */
  ghost predicate Zone(vals: seq<i64>, min: i64, max: i64) {
    && (if vals == [] then min == I64_MAX && max == I64_MIN else min in vals && max in vals)
    && forall v :: v in vals ==> min <= v <= max
  }

  ghost predicate Within(file: seq<byte>, p: PageMeta) {
    p.offset + p.compLen <= |file|
  }

  ghost predicate IntPage(file: seq<byte>, p: PageMeta, vals: seq<i64>) {
    && Within(file, p) && p.rows == |vals| && Zone(vals, p.min, p.max)
    && DecodePage(file[p.offset..p.offset + p.compLen], |vals|) == Some(vals)
  }

  ghost predicate IntPages(file: seq<byte>, pages: seq<PageMeta>, vals: seq<i64>) {
    && |pages| == PageCount(|vals|)
    && forall k :: 0 <= k < |pages| ==> IntPage(file, pages[k], PageOf(vals, k))
  }

  ghost predicate CodePage(file: seq<byte>, p: PageMeta, codes: seq<nat>) {
    && Within(file, p) && p.rows == |codes|
    && Lz4.Decompressed(file[p.offset..p.offset + p.compLen]) == Ok(All(U32, codes))
  }

  ghost predicate CodePages(file: seq<byte>, pages: seq<PageMeta>, codes: seq<nat>) {
    && |pages| == PageCount(|codes|)
    && forall k :: 0 <= k < |pages| ==> CodePage(file, pages[k], PageOf(codes, k))
  }

  // ---- the dictionary of a text chunk ----

  /** The distinct strings of a column, in order of first occurrence. */
  function Dict(strs: seq<Text>): (d: seq<Text>)
    ensures forall s :: s in d <==> s in strs
    ensures forall i, j :: 0 <= i < j < |d| ==> d[i] != d[j]
  {
    if strs == [] then [] else
    var last := strs[|strs| - 1];
    var d := Dict(strs[..|strs| - 1]);
    assert strs == strs[..|strs| - 1] + [last];
    if last in d then d else d + [last]
  }

  function IndexOf(d: seq<Text>, s: Text): (i: nat)
    requires s in d
    ensures i < |d| && d[i] == s
  {
    if d[0] == s then 0 else 1 + IndexOf(d[1..], s)
  }

  function Codes(d: seq<Text>, strs: seq<Text>): (codes: seq<nat>)
    requires forall s :: s in strs ==> s in d
    ensures |codes| == |strs|
    ensures forall i :: 0 <= i < |codes| ==> codes[i] < |d| && d[codes[i]] == strs[i]
  {
    if strs == [] then [] else [IndexOf(d, strs[0])] + Codes(d, strs[1..])
  }

  function DictRaw(d: seq<Text>): seq<byte> {
    U32(|d|) + All(WS, d)
  }

  function ReadDict(raw: seq<byte>): Option<seq<Text>> {
    var (n, p1) :- R32(raw, 0);
    var (d, _) :- Times(RS, n, raw, p1);
    Some(d)
  }

  lemma ReadDictOf(d: seq<Text>)
    requires |DictRaw(d)| < TWO_32
    ensures ReadDict(DictRaw(d)) == Some(d) && |d| < TWO_32
  {
    hide At, R32, RS, U32, WS, Times, All;
    var raw := DictRaw(d);
    Whole(raw);
    AtConcat(raw, 0, U32(|d|), All(WS, d));
    DictSize(d);
    R32At(raw, 0, |d|);
    var ok := (s: Text) => |WS(s)| < TWO_32;
    forall s, b, k: nat | ok(s) && At(b, k, WS(s)) ensures RS(b, k) == Some((s, k + |WS(s)|)) {
      WSSize(s);
      RSAt(b, k, s);
    }
    TimesOfAll(RS, WS, ok, d, raw, 4);
  }

  lemma WSSize(s: Text)
    ensures |WS(s)| == |s| + 4
  {
  }

  lemma DictSize(d: seq<Text>)
    ensures |DictRaw(d)| >= |d| && forall s :: s in d ==> |WS(s)| <= |DictRaw(d)|
  {
    AllSize(WS, d);
  }

  ghost predicate DictHolds(file: seq<byte>, c: ChunkMeta, d: seq<Text>) {
    && c.dictOff + c.dictLen <= |file| && c.dictCount == |d|
    && match Lz4.Decompressed(file[c.dictOff..c.dictOff + c.dictLen])
       case Err(_) => false
       case Ok(raw) => ReadDict(raw) == Some(d)
  }

  /** The order of `str`: bytewise, a proper prefix first. */
  predicate Less(a: Text, b: Text) {
    b != [] && (a == [] || a[0] < b[0] || (a[0] == b[0] && Less(a[1..], b[1..])))
  }

  /** Bytewise lexicographic order: a prefix, or smaller at the first byte that differs. */
  ghost predicate TextAtMost(a: Text, b: Text) {
    a <= b || exists k :: 0 <= k < |a| && k < |b| && a[..k] == b[..k] && a[k] < b[k]
  }

  /** `Less` is the strict part of that order, which is total. */
  lemma {:induction false} LessIs(a: Text, b: Text)
    ensures Less(a, b) <==> !TextAtMost(b, a)
    ensures TextAtMost(a, b) || TextAtMost(b, a)
    decreases |a|
  {
    if a != [] && b != [] {
      if a[0] == b[0] {
        LessIs(a[1..], b[1..]);
        TailAtMost(a, b);
        TailAtMost(b, a);
      } else {
        HeadAtMost(a, b);
        HeadAtMost(b, a);
      }
    }
  }

  lemma TailAtMost(a: Text, b: Text)
    requires a != [] && b != [] && a[0] == b[0]
    ensures TextAtMost(a, b) <==> TextAtMost(a[1..], b[1..])
  {
    if k :| 0 <= k < |a| && k < |b| && a[..k] == b[..k] && a[k] < b[k] {
      assert a[1..][..k - 1] == a[..k][1..] == b[..k][1..] == b[1..][..k - 1];
    }
    if k :| 0 <= k < |a[1..]| && k < |b[1..]| && a[1..][..k] == b[1..][..k] && a[1..][k] < b[1..][k] {
      assert a[..k + 1] == [a[0]] + a[1..][..k] == [b[0]] + b[1..][..k] == b[..k + 1];
    }
    assert a == [a[0]] + a[1..] && b == [b[0]] + b[1..];
  }

  lemma HeadAtMost(a: Text, b: Text)
    requires a != [] && b != [] && a[0] != b[0]
    ensures TextAtMost(a, b) <==> a[0] < b[0]
  {
    forall k | 0 < k <= |a| && k <= |b| ensures a[..k] != b[..k] {
      assert a[..k][0] != b[..k][0];
    }
    if a[0] < b[0] {
      assert a[..0] == b[..0];
    }
  }

  ghost predicate TextZone(strs: seq<Text>, min: Text, max: Text) {
    && (if strs == [] then min == [] && max == [] else min in strs && max in strs)
    && forall s :: s in strs ==> !Less(s, min) && !Less(max, s)
  }

  lemma {:induction false} LessTransitive(a: Text, b: Text, c: Text)
    requires !Less(a, b) && !Less(b, c)
    ensures !Less(a, c)
  {
    if c != [] && b != [] && a != [] && a[0] == b[0] == c[0] {
      LessTransitive(a[1..], b[1..], c[1..]);
    }
  }

  lemma {:induction false} LessAsymmetric(a: Text, b: Text)
    requires Less(a, b)
    ensures !Less(b, a)
  {
    if a != [] && a[0] == b[0] {
      LessAsymmetric(a[1..], b[1..]);
    }
  }

  // ---- chunks ----

  ghost predicate ChunkHolds(file: seq<byte>, c: ChunkMeta, col: Column) {
    && c.dtype == TypeOf(col)
    && match col
       case Ints(vals) => IntPages(file, c.pages, vals) && Zone(vals, c.minI, c.maxI)
       case Texts(strs) =>
         && DictHolds(file, c, Dict(strs)) && CodePages(file, c.pages, Codes(Dict(strs), strs))
         && TextZone(strs, c.minS, c.maxS)
  }

  /** The dictionary of a text column, even incompressible, fits its 32-bit lengths. */
  ghost predicate Fits(col: Column) {
    col.Texts? ==> var n := |DictRaw(Dict(col.texts))|; n + n / 255 + 6 < TWO_32
  }

  // ---- appending keeps what a file holds ----

  lemma SliceKept(file: seq<byte>, more: seq<byte>, off: nat, n: nat)
    requires off + n <= |file|
    ensures (file + more)[off..off + n] == file[off..off + n]
  {
  }

  lemma IntPageKept(file: seq<byte>, more: seq<byte>, p: PageMeta, vals: seq<i64>)
    requires IntPage(file, p, vals)
    ensures IntPage(file + more, p, vals)
  {
    hide Zone, DecodePage;
    SliceKept(file, more, p.offset, p.compLen);
  }

  lemma CodePageKept(file: seq<byte>, more: seq<byte>, p: PageMeta, codes: seq<nat>)
    requires CodePage(file, p, codes)
    ensures CodePage(file + more, p, codes)
  {
    hide Lz4.Decompressed, All;
    SliceKept(file, more, p.offset, p.compLen);
  }

  lemma IntPagesKept(file: seq<byte>, more: seq<byte>, pages: seq<PageMeta>, vals: seq<i64>)
    requires IntPages(file, pages, vals)
    ensures IntPages(file + more, pages, vals)
  {
    hide IntPage, PageOf;
    forall k | 0 <= k < |pages| ensures IntPage(file + more, pages[k], PageOf(vals, k)) {
      IntPageKept(file, more, pages[k], PageOf(vals, k));
    }
  }

  lemma CodePagesKept(file: seq<byte>, more: seq<byte>, pages: seq<PageMeta>, codes: seq<nat>)
    requires CodePages(file, pages, codes)
    ensures CodePages(file + more, pages, codes)
  {
    hide CodePage, PageOf;
    forall k | 0 <= k < |pages| ensures CodePage(file + more, pages[k], PageOf(codes, k)) {
      CodePageKept(file, more, pages[k], PageOf(codes, k));
    }
  }

  lemma DictKept(file: seq<byte>, more: seq<byte>, c: ChunkMeta, d: seq<Text>)
    requires DictHolds(file, c, d)
    ensures DictHolds(file + more, c, d)
  {
    hide Lz4.Decompressed, ReadDict;
    SliceKept(file, more, c.dictOff, c.dictLen);
  }

  lemma ChunkKept(file: seq<byte>, more: seq<byte>, c: ChunkMeta, col: Column)
    requires ChunkHolds(file, c, col)
    ensures ChunkHolds(file + more, c, col)
  {
    hide DictHolds, IntPages, CodePages, Zone, TextZone, Dict, Codes;
    match col {
      case Ints(vals) => IntPagesKept(file, more, c.pages, vals);
      case Texts(strs) =>
        DictKept(file, more, c, Dict(strs));
        CodePagesKept(file, more, c.pages, Codes(Dict(strs), strs));
    }
  }

  // ---- zones of adjacent slices ----

  function MinI(a: i64, b: i64): i64 {
    if b < a then b else a
  }

  function MaxI(a: i64, b: i64): i64 {
    if b > a then b else a
  }

  lemma ZoneConcat(a: seq<i64>, b: seq<i64>, amin: i64, amax: i64, bmin: i64, bmax: i64)
    requires Zone(a, amin, amax) && Zone(b, bmin, bmax)
    ensures Zone(a + b, MinI(amin, bmin), MaxI(amax, bmax))
  {
  }

  lemma PageJoins<T>(xs: seq<T>, k: nat)
    ensures xs[..Start(|xs|, k)] + PageOf(xs, k) == xs[..Start(|xs|, k + 1)] && |PageOf(xs, k)| <= PAGE_ROWS
    ensures k < PageCount(|xs|) ==> PageOf(xs, k) != [] && Start(|xs|, k) == k * PAGE_ROWS
  {
  }

  lemma AllPages(n: nat)
    ensures Start(n, 0) == 0 && Start(n, PageCount(n)) == n
  {
  }
}
