/** Standalone executables: the sections of a program appended to any host file with a footer of
    their sizes, and the loader that seeks back from it (src/compiler.c:2815-2865;
    src/vm.c:1985-2023; src/defines.h:104-118). */
module Bundles {
  type Byte = x: int | 0 <= x < 256

  const INT_SIZE: nat := 4
  const LONG_SIZE: nat := 8
  const CONSTANT_SIZE: nat := 8
  const STRING_SIZE: nat := 1024
  const DEPENDENCY_SIZE: nat := 68
  const SYMBOL_SIZE: nat := 260
  const FUNCTION_SIZE: nat := 68
  const FOOTER_SIZE: nat := 64
  const INT_SPAN := 0x1_0000_0000
  const LONG_LIMIT := 0x8000_0000_0000_0000

  /** MYLO_MAGIC with its terminator, and the padding of the struct. */
  const MAGIC: seq<Byte> := [77, 89, 76, 79, 95, 69, 88, 69, 0]
  const PADDING: seq<Byte> := [0, 0, 0, 0, 0, 0, 0]

  type Record = seq<Byte>

  /** The six sections; all but the bytecode are arrays of records of a fixed width. */
  datatype Image = Image(code: seq<int>, consts: seq<Record>, strings: seq<Record>, deps: seq<Record>,
                         symbols: seq<Record>, functions: seq<Record>)

  ghost predicate Wide(rs: seq<Record>, width: nat) {
    forall r <- rs :: |r| == width
  }

  predicate Ints(code: seq<int>) {
    forall i :: 0 <= i < |code| ==> -INT_SPAN / 2 <= code[i] < INT_SPAN / 2
  }

  ghost predicate WellFormed(p: Image) {
    && Ints(p.code)
    && Wide(p.consts, CONSTANT_SIZE) && Wide(p.strings, STRING_SIZE) && Wide(p.deps, DEPENDENCY_SIZE)
    && Wide(p.symbols, SYMBOL_SIZE) && Wide(p.functions, FUNCTION_SIZE)
    && |p.code| * INT_SIZE < LONG_LIMIT && |p.consts| * CONSTANT_SIZE < LONG_LIMIT && |p.strings| * STRING_SIZE < LONG_LIMIT
    && |p.deps| * DEPENDENCY_SIZE < LONG_LIMIT && |p.symbols| * SYMBOL_SIZE < LONG_LIMIT && |p.functions| * FUNCTION_SIZE < LONG_LIMIT
  }

  // ---- Numbers ----

  function Power(k: nat): (r: nat)
    ensures r >= 1
  {
    if k == 0 then 1 else 256 * Power(k - 1)
  }

  /** The low `k` bytes of `n`, least significant first. */
  function LittleEndian(n: nat, k: nat): (bs: seq<Byte>)
    ensures |bs| == k
    decreases k
  {
    if k == 0 then [] else [n % 256] + LittleEndian(n / 256, k - 1)
  }

  function Number(bs: seq<Byte>): nat {
    if bs == [] then 0 else bs[0] + 256 * Number(bs[1..])
  }

  lemma {:induction false} NumberBack(n: nat, k: nat)
    requires n < Power(k)
    ensures Number(LittleEndian(n, k)) == n
    decreases k
  {
    if k > 0 {
      NumberBack(n / 256, k - 1);
      assert LittleEndian(n, k)[1..] == LittleEndian(n / 256, k - 1);
    }
  }

  lemma Powers()
    ensures Power(4) == INT_SPAN && Power(8) == INT_SPAN * INT_SPAN
  {
    assert Power(4) == 256 * (256 * (256 * (256 * Power(0))));
    assert Power(8) == 256 * (256 * (256 * (256 * Power(4))));
  }

  /** A C int: two's complement. */
  function EncodeInt(x: int): (bs: seq<Byte>)
    requires -INT_SPAN / 2 <= x < INT_SPAN / 2
    ensures |bs| == INT_SIZE
  {
    LittleEndian(if x < 0 then x + INT_SPAN else x, INT_SIZE)
  }

  function DecodeInt(bs: seq<Byte>): int {
    var n := Number(bs);
    if n >= INT_SPAN / 2 then n - INT_SPAN else n
  }

  lemma IntBack(x: int)
    requires -INT_SPAN / 2 <= x < INT_SPAN / 2
    ensures DecodeInt(EncodeInt(x)) == x
  {
    Powers();
    NumberBack(if x < 0 then x + INT_SPAN else x, INT_SIZE);
  }

  // ---- Arrays of records ----

  function Flatten(rs: seq<Record>): seq<Byte> {
    if rs == [] then [] else rs[0] + Flatten(rs[1..])
  }

  /** fread of whole records; a rest shorter than a record is not read. */
  function Chop(bs: seq<Byte>, width: nat): seq<Record>
    requires width > 0
    decreases |bs|
  {
    if |bs| < width then [] else [bs[..width]] + Chop(bs[width..], width)
  }

  lemma {:induction false} ChopFlatten(rs: seq<Record>, width: nat)
    requires width > 0 && Wide(rs, width)
    ensures Chop(Flatten(rs), width) == rs && |Flatten(rs)| == |rs| * width
  {
    if rs != [] {
      assert |rs[0]| == width by { assert rs[0] in rs; }
      assert Wide(rs[1..], width);
      ChopFlatten(rs[1..], width);
      ChopStep(rs[0], Flatten(rs[1..]), width);
      OneMore(|rs| - 1, width);
    }
  }

  lemma OneMore(n: nat, width: nat)
    ensures (n + 1) * width == n * width + width
  {
  }

  lemma ChopStep(r: Record, rest: seq<Byte>, width: nat)
    requires width > 0 && |r| == width
    ensures Chop(r + rest, width) == [r] + Chop(rest, width)
  {
    assert (r + rest)[..width] == r && (r + rest)[width..] == rest;
  }

  function EncodeCode(code: seq<int>): seq<Record>
    requires Ints(code)
  {
    seq(|code|, i requires 0 <= i < |code| => EncodeInt(code[i]))
  }

  function DecodeCode(rs: seq<Record>): seq<int> {
    seq(|rs|, i requires 0 <= i < |rs| => DecodeInt(rs[i]))
  }

  lemma CodeBack(code: seq<int>)
    requires Ints(code)
    ensures DecodeCode(EncodeCode(code)) == code && Wide(EncodeCode(code), INT_SIZE)
  {
    forall i | 0 <= i < |code| ensures DecodeInt(EncodeInt(code[i])) == code[i] {
      IntBack(code[i]);
    }
  }

  // ---- The file format ----

  function Payload(p: Image): seq<Byte>
    requires Ints(p.code)
  {
    Flatten(EncodeCode(p.code)) + Flatten(p.consts) + Flatten(p.strings) + Flatten(p.deps) + Flatten(p.symbols) + Flatten(p.functions)
  }

  /** The sizes in the order of the footer's fields. */
  datatype Sizes = Sizes(code: nat, consts: nat, strings: nat, deps: nat, symbols: nat, functions: nat) {
    function Total(): nat {
      code + consts + strings + deps + symbols + functions
    }
  }

  function SizesOf(p: Image): Sizes {
    Sizes(|p.code| * INT_SIZE, |p.consts| * CONSTANT_SIZE, |p.strings| * STRING_SIZE,
          |p.deps| * DEPENDENCY_SIZE, |p.symbols| * SYMBOL_SIZE, |p.functions| * FUNCTION_SIZE)
  }

  function EncodeFooter(z: Sizes): (bs: seq<Byte>)
    ensures |bs| == FOOTER_SIZE
  {
    LittleEndian(z.code, LONG_SIZE) + LittleEndian(z.consts, LONG_SIZE) + LittleEndian(z.strings, LONG_SIZE)
    + LittleEndian(z.deps, LONG_SIZE) + LittleEndian(z.symbols, LONG_SIZE) + LittleEndian(z.functions, LONG_SIZE)
    + MAGIC + PADDING
  }

  function Field(bs: seq<Byte>, i: nat): nat
    requires |bs| == FOOTER_SIZE && i < 6
  {
    Number(bs[8 * i..8 * i + 8])
  }

  function DecodeFooter(bs: seq<Byte>): Sizes
    requires |bs| == FOOTER_SIZE
  {
    Sizes(Field(bs, 0), Field(bs, 1), Field(bs, 2), Field(bs, 3), Field(bs, 4), Field(bs, 5))
  }

  lemma FooterBack(z: Sizes)
    requires z.code < LONG_LIMIT && z.consts < LONG_LIMIT && z.strings < LONG_LIMIT
    requires z.deps < LONG_LIMIT && z.symbols < LONG_LIMIT && z.functions < LONG_LIMIT
    ensures DecodeFooter(EncodeFooter(z)) == z && EncodeFooter(z)[48..57] == MAGIC
  {
    hide LittleEndian, Number, Power;
    Powers();
    FieldsFound(LittleEndian(z.code, 8), LittleEndian(z.consts, 8), LittleEndian(z.strings, 8),
                LittleEndian(z.deps, 8), LittleEndian(z.symbols, 8), LittleEndian(z.functions, 8));
    NumberBack(z.code, 8);
    NumberBack(z.consts, 8);
    NumberBack(z.strings, 8);
    NumberBack(z.deps, 8);
    NumberBack(z.symbols, 8);
    NumberBack(z.functions, 8);
  }

  lemma FieldsFound(a: seq<Byte>, b: seq<Byte>, c: seq<Byte>, d: seq<Byte>, e: seq<Byte>, f: seq<Byte>)
    requires |a| == |b| == |c| == |d| == |e| == |f| == 8
    ensures var bs := a + b + c + d + e + f + MAGIC + PADDING;
      && bs[0..8] == a && bs[8..16] == b && bs[16..24] == c && bs[24..32] == d && bs[32..40] == e && bs[40..48] == f
      && bs[48..57] == MAGIC && |bs| == FOOTER_SIZE
  {
  }

  // ---- Writing and reading ----

  /** A file with a cursor. */
  class File {
    var data: seq<Byte>
    var at: int

    constructor (data: seq<Byte>)
      ensures this.data == data && at == 0
    {
      this.data, at := data, 0;
    }

    method Write(bs: seq<Byte>)
      modifies `data
      ensures data == old(data) + bs
    {
      data := data + bs;
    }

    /** fseek from the end. */
    method SeekEnd(back: nat)
      requires back <= |data|
      modifies `at
      ensures at == |data| - back
    {
      at := |data| - back;
    }

    method Read(n: nat) returns (bs: seq<Byte>)
      requires 0 <= at <= |data| - n
      modifies `at
      ensures bs == data[old(at)..old(at) + n] && at == old(at) + n
    {
      bs := data[at..at + n];
      at := at + n;
    }
  }

  const BUFFER: nat := 4096

  lemma PayloadIs(p: Image, host: seq<Byte>)
    requires WellFormed(p)
    ensures host + Flatten(EncodeCode(p.code)) + Flatten(p.consts) + Flatten(p.strings) + Flatten(p.deps) + Flatten(p.symbols)
      + Flatten(p.functions) == host + Payload(p)
  {
    hide Flatten, EncodeCode;
  }

  /** create_standalone_executable. */
  method CreateStandalone(host: seq<Byte>, p: Image) returns (out: File)
    requires WellFormed(p)
    ensures fresh(out) && out.data == host + Payload(p) + EncodeFooter(SizesOf(p))
  {
    hide Flatten, EncodeCode, EncodeFooter, SizesOf, Payload;
    out := new File([]);
    var n := 0;
    while n < |host|
      invariant 0 <= n <= |host| && out.data == host[..n] && fresh(out)
    {
      var k := if n + BUFFER <= |host| then n + BUFFER else |host|;
      out.Write(host[n..k]);
      n := k;
    }
    assert host[..n] == host;
    out.Write(Flatten(EncodeCode(p.code)));
    out.Write(Flatten(p.consts));
    out.Write(Flatten(p.strings));
    out.Write(Flatten(p.deps));
    out.Write(Flatten(p.symbols));
    out.Write(Flatten(p.functions));
    PayloadIs(p, host);
    out.Write(EncodeFooter(SizesOf(p)));
  }

  /** Plain: no footer. Garbled: a footer whose sizes reach beyond the start of the file. */
  datatype Loaded = Plain | Garbled | Bundle(image: Image)

  /** load_self_contained. */
  method Load(f: File) returns (r: Loaded)
    modifies f
    ensures f.data == old(f.data) && r == LoadedFrom(f.data)
  {
    if |f.data| < FOOTER_SIZE {
      return Plain;
    }
    f.SeekEnd(FOOTER_SIZE);
    var footer := f.Read(FOOTER_SIZE);
    assert footer == f.data[|f.data| - FOOTER_SIZE..];
    if footer[48..57] != MAGIC {
      return Plain;
    }
    var z := DecodeFooter(footer);
    if z.Total() + FOOTER_SIZE > |f.data| {
      return Garbled;
    }
    f.SeekEnd(z.Total() + FOOTER_SIZE);
    var image := ReadImage(f, z);
    r := Bundle(image);
  }

  /** The sections, one after the other. */
  method ReadImage(f: File, z: Sizes) returns (image: Image)
    requires z.Total() + FOOTER_SIZE <= |f.data| && f.at == |f.data| - FOOTER_SIZE - z.Total()
    modifies f`at
    ensures image == ImageAt(f.data, z)
  {
    hide Chop, DecodeCode;
    var code := f.Read(z.code);
    var consts := f.Read(z.consts);
    var strings := f.Read(z.strings);
    var deps := f.Read(z.deps);
    var symbols := f.Read(z.symbols);
    var functions := f.Read(z.functions);
    image := Image(DecodeCode(Chop(code, INT_SIZE)), Chop(consts, CONSTANT_SIZE), Chop(strings, STRING_SIZE),
                   Chop(deps, DEPENDENCY_SIZE), Chop(symbols, SYMBOL_SIZE), Chop(functions, FUNCTION_SIZE));
  }

  function Section(data: seq<Byte>, z: Sizes, skip: nat, size: nat): seq<Byte>
    requires skip + size <= z.Total() && z.Total() + FOOTER_SIZE <= |data|
  {
    var start := |data| - FOOTER_SIZE - z.Total() + skip;
    data[start..start + size]
  }

  /** What the loader finds in a file. */
  function LoadedFrom(data: seq<Byte>): Loaded {
    if |data| < FOOTER_SIZE then Plain
    else
      var footer := data[|data| - FOOTER_SIZE..];
      if footer[48..57] != MAGIC then Plain
      else
        var z := DecodeFooter(footer);
        if z.Total() + FOOTER_SIZE > |data| then Garbled
        else Bundle(ImageAt(data, z))
  }

  /** A file is taken for a program alone if and only if it ends in the mark, "MYLO_EXE" and a zero, before
      the padding of the footer. */
  lemma PlainIff(data: seq<Byte>)
    ensures LoadedFrom(data) != Plain <==>
      |data| >= 64 && data[|data| - 16..|data| - 7] == [77, 89, 76, 79, 95, 69, 88, 69, 0]
  {
    hide DecodeFooter, ImageAt;
    if |data| >= FOOTER_SIZE {
      assert data[|data| - FOOTER_SIZE..][48..57] == data[|data| - 16..|data| - 7];
    }
  }

  function ImageAt(data: seq<Byte>, z: Sizes): Image
    requires z.Total() + FOOTER_SIZE <= |data|
  {
    var a := z.code;
    var b := a + z.consts;
    var c := b + z.strings;
    var d := c + z.deps;
    var e := d + z.symbols;
    Image(DecodeCode(Chop(Section(data, z, 0, z.code), INT_SIZE)),
          Chop(Section(data, z, a, z.consts), CONSTANT_SIZE), Chop(Section(data, z, b, z.strings), STRING_SIZE),
          Chop(Section(data, z, c, z.deps), DEPENDENCY_SIZE), Chop(Section(data, z, d, z.symbols), SYMBOL_SIZE),
          Chop(Section(data, z, e, z.functions), FUNCTION_SIZE))
  }

  /** Whatever the host's bytes, even those of another bundle, loading finds exactly what was appended. */
  lemma BundleRoundTrip(host: seq<Byte>, p: Image)
    requires WellFormed(p)
    ensures LoadedFrom(host + Payload(p) + EncodeFooter(SizesOf(p))) == Bundle(p)
  {
    hide Flatten, Chop, EncodeFooter, DecodeFooter, EncodeCode, DecodeCode, ImageAt, Payload;
    var z := SizesOf(p);
    var data := host + Payload(p) + EncodeFooter(z);
    FooterBack(z);
    assert data[|data| - FOOTER_SIZE..] == EncodeFooter(z);
    PayloadFound(host, p, EncodeFooter(z));
  }

  lemma PayloadFound(host: seq<Byte>, p: Image, footer: seq<Byte>)
    requires WellFormed(p) && |footer| == FOOTER_SIZE
    ensures var data := host + Payload(p) + footer;
      SizesOf(p).Total() + FOOTER_SIZE <= |data| && ImageAt(data, SizesOf(p)) == p
  {
    hide Flatten, Chop, EncodeCode, DecodeCode, Section;
    CodeBack(p.code);
    var code := EncodeCode(p.code);
    assert |code| == |p.code| by { CodeSize(p.code); }
    ChopFlatten(code, INT_SIZE);
    ChopFlatten(p.consts, CONSTANT_SIZE);
    ChopFlatten(p.strings, STRING_SIZE);
    ChopFlatten(p.deps, DEPENDENCY_SIZE);
    ChopFlatten(p.symbols, SYMBOL_SIZE);
    ChopFlatten(p.functions, FUNCTION_SIZE);
    SectionsFound(host, Flatten(code), Flatten(p.consts), Flatten(p.strings), Flatten(p.deps), Flatten(p.symbols),
                  Flatten(p.functions), footer, SizesOf(p));
  }

  lemma CodeSize(code: seq<int>)
    requires Ints(code)
    ensures |EncodeCode(code)| == |code|
  {
  }

  lemma SectionsFound(host: seq<Byte>, a: seq<Byte>, b: seq<Byte>, c: seq<Byte>, d: seq<Byte>, e: seq<Byte>, f: seq<Byte>,
      footer: seq<Byte>, z: Sizes)
    requires |footer| == FOOTER_SIZE && z == Sizes(|a|, |b|, |c|, |d|, |e|, |f|)
    ensures var data := host + (a + b + c + d + e + f) + footer;
      && Section(data, z, 0, |a|) == a && Section(data, z, |a|, |b|) == b && Section(data, z, |a| + |b|, |c|) == c
      && Section(data, z, |a| + |b| + |c|, |d|) == d && Section(data, z, |a| + |b| + |c| + |d|, |e|) == e
      && Section(data, z, |a| + |b| + |c| + |d| + |e|, |f|) == f
  {
  }
}
