/**
 The bytes that Settings.Hash feeds to its hash function.

 Strings are byte sequences; `Int64` is Go's int. The stream has no separators: each field is
 recognisable only through its length prefix, so injectivity is a prefix-code argument. The
 lemmas leave the widths open; the code's widths are `GO`.
 */
module Settings {

  type Byte = b: int | 0 <= b < 256

  type Bytes = seq<Byte>

  type Int64 = i: int | -0x8000_0000_0000_0000 <= i < 0x8000_0000_0000_0000

  type Uint16 = i: int | 0 <= i < 0x1_0000

  /** How many bytes a length prefix and an integer take. */
  datatype Widths = Widths(length: nat, integer: nat)

  const GO := Widths(4, 8)

  datatype Settings = Settings(
    tlsCA: Bytes, serverTLSCert: Bytes, ipTables: Bytes, startUpLockPath: Bytes, buildkitAddress: Bytes,
    localRegistryAddress: Bytes, serverTLSKey: Bytes, clientTLSKey: Bytes, clientTLSCert: Bytes,
    volumeName: Bytes, additionalConfig: Bytes, additionalArgs: seq<Bytes>,
    cacheSizeMb: Int64, cacheSizePct: Int64, timeout: Int64, maxParallelism: Int64, cacheKeepDuration: Int64,
    cniMtu: Uint16, useTLS: bool, useTCP: bool, enableProfiler: bool, noUpdate: bool, debug: bool)

  /** The low `width` bytes of `n`, most significant first. */
  function BigEndian(n: nat, width: nat): (r: Bytes)
    ensures |r| == width
  {
    if width == 0 then [] else BigEndian(n / 256, width - 1) + [n % 256]
  }

  /** Go's conversion of an int to uint64. */
  function ToUint64(i: Int64): (n: nat)
    ensures n < 0x1_0000_0000_0000_0000 && (n == i || n == i + 0x1_0000_0000_0000_0000)
  {
    if i < 0 then i + 0x1_0000_0000_0000_0000 else i
  }

  /** One thing written to the hash. */
  datatype Field = Str(s: Bytes) | Int(i: Int64) | Bool(b: bool)

  function Encode(f: Field, w: Widths): Bytes {
    match f
    case Str(s) => BigEndian(|s|, w.length) + s
    case Int(i) => BigEndian(ToUint64(i), w.integer)
    case Bool(b) => if b then [1] else [0]
  }

  function EncodeAll(fs: seq<Field>, w: Widths): Bytes {
    if fs == [] then [] else EncodeAll(fs[..|fs| - 1], w) + Encode(fs[|fs| - 1], w)
  }

  function StrFields(ss: seq<Bytes>): (fs: seq<Field>)
    ensures |fs| == |ss| && forall k :: 0 <= k < |ss| ==> fs[k] == Str(ss[k])
  {
    if ss == [] then [] else StrFields(ss[..|ss| - 1]) + [Str(ss[|ss| - 1])]
  }

  lemma StrFieldsSnoc(ss: seq<Bytes>, k: nat)
    requires k < |ss|
    ensures StrFields(ss[..k + 1]) == StrFields(ss[..k]) + [Str(ss[k])]
  {
    assert ss[..k + 1][..k] == ss[..k];
  }

  lemma NextArg(before: seq<Field>, args: seq<Bytes>, k: nat)
    requires k < |args| < 0x8000_0000_0000_0000
    ensures before + ([Int(|args|)] + StrFields(args[..k])) + [Str(args[k])]
         == before + ([Int(|args|)] + StrFields(args[..k + 1]))
  {
    StrFieldsSnoc(args, k);
  }

  function AddressFields(s: Settings): seq<Field> {
    [Str(s.tlsCA), Str(s.serverTLSCert), Str(s.ipTables), Str(s.buildkitAddress), Str(s.localRegistryAddress)]
  }

  function KeyFields(s: Settings): seq<Field> {
    [Str(s.serverTLSKey), Str(s.clientTLSKey), Str(s.clientTLSCert), Str(s.volumeName), Str(s.additionalConfig)]
  }

  function HeadFields(s: Settings): (fs: seq<Field>) {
    AddressFields(s) + KeyFields(s)
  }

  /** The additional arguments after their number; a slice length always fits Go's int. */
  function ArgFields(args: seq<Bytes>): (fs: seq<Field>)
    requires |args| < 0x8000_0000_0000_0000
  {
    [Int(|args|)] + StrFields(args)
  }

  function IntFields(s: Settings): seq<Field> {
    [Int(s.cacheSizeMb), Int(s.cacheSizePct), Int(s.maxParallelism), Int(s.cacheKeepDuration), Int(s.cniMtu)]
  }

  function BoolFields(s: Settings): seq<Field> {
    [Bool(s.useTLS), Bool(s.useTCP), Bool(s.enableProfiler), Bool(s.debug)]
  }

  function TailFields(s: Settings): (fs: seq<Field>)
    ensures |fs| == 9 && forall k :: 0 <= k < 9 ==> if k < 5 then fs[k].Int? else fs[k].Bool?
  {
    IntFields(s) + BoolFields(s)
  }

  /** Everything Hash writes, in order. */
  function Stream(s: Settings, w: Widths): Bytes
    requires |s.additionalArgs| < 0x8000_0000_0000_0000
  {
    EncodeAll(HeadFields(s) + (ArgFields(s.additionalArgs) + TailFields(s)), w)
  }

  lemma Assoc(x: Bytes, y: Bytes, z: Bytes)
    ensures x + (y + z) == x + y + z
  {
  }

  lemma EncodeSnoc(fs: seq<Field>, f: Field, w: Widths)
    ensures EncodeAll(fs + [f], w) == EncodeAll(fs, w) + Encode(f, w)
  {
    assert (fs + [f])[..|fs|] == fs;
  }

  lemma Resplit(a: seq<Field>, b: seq<Field>)
    requires b != []
    ensures a + b == a + b[..|b| - 1] + [b[|b| - 1]]
  {
  }

  lemma {:induction false} EncodeAppend(a: seq<Field>, b: seq<Field>, w: Widths)
    ensures EncodeAll(a + b, w) == EncodeAll(a, w) + EncodeAll(b, w)
  {
    if b == [] {
      assert a + b == a;
    } else {
      var init, last := b[..|b| - 1], b[|b| - 1];
      EncodeAppend(a, init, w);
      Resplit(a, b);
      EncodeSnoc(a + init, last, w);
      Assoc(EncodeAll(a, w), EncodeAll(init, w), Encode(last, w));
    }
  }

  // ----- The hasher -----

  lemma OneByOne(fs: seq<Field>, a: Field, b: Field, c: Field, d: Field, e: Field)
    ensures fs + [a] + [b] + [c] + [d] == fs + [a, b, c, d]
    ensures fs + [a] + [b] + [c] + [d] + [e] == fs + [a, b, c, d, e]
  {
  }

  /** What has been written to the hash so far, and the fields it stands for. Writing cannot fail. */
  class SettingsHasher {
    const w: Widths
    var written: Bytes
    ghost var fields: seq<Field>

    ghost predicate Valid()
      reads this
    {
      written == EncodeAll(fields, w)
    }

    constructor (w: Widths)
      ensures this.w == w && Valid() && fields == []
    {
      this.w := w;
      written, fields := [], [];
    }

    method WriteString(str: Bytes)
      requires Valid()
      modifies this
      ensures Valid() && fields == old(fields) + [Str(str)]
      ensures written == old(written) + (BigEndian(|str|, w.length) + str)
    {
      EncodeSnoc(fields, Str(str), w);
      Assoc(written, BigEndian(|str|, w.length), str);
      written := written + BigEndian(|str|, w.length);
      written := written + str;
      fields := fields + [Str(str)];
    }

    method WriteBool(b: bool)
      requires Valid()
      modifies this
      ensures Valid() && fields == old(fields) + [Bool(b)]
      ensures written == old(written) + [if b then 1 else 0]
    {
      EncodeSnoc(fields, Bool(b), w);
      var val := 0;
      if b {
        val := 1;
      }
      written := written + [val];
      fields := fields + [Bool(b)];
    }

    method WriteInt(i: Int64)
      requires Valid()
      modifies this
      ensures Valid() && fields == old(fields) + [Int(i)]
      ensures written == old(written) + BigEndian(ToUint64(i), w.integer)
    {
      EncodeSnoc(fields, Int(i), w);
      written := written + BigEndian(ToUint64(i), w.integer);
      fields := fields + [Int(i)];
    }

    /** The first five strings. */
    method WriteAddresses(s: Settings)
      requires Valid()
      modifies this
      ensures Valid() && fields == old(fields) + AddressFields(s)
    {
      WriteString(s.tlsCA);
      WriteString(s.serverTLSCert);
      WriteString(s.ipTables);
      WriteString(s.buildkitAddress);
      WriteString(s.localRegistryAddress);
      OneByOne(old(fields), Str(s.tlsCA), Str(s.serverTLSCert), Str(s.ipTables), Str(s.buildkitAddress),
               Str(s.localRegistryAddress));
    }

    /** The other five strings. */
    method WriteKeys(s: Settings)
      requires Valid()
      modifies this
      ensures Valid() && fields == old(fields) + KeyFields(s)
    {
      WriteString(s.serverTLSKey);
      WriteString(s.clientTLSKey);
      WriteString(s.clientTLSCert);
      WriteString(s.volumeName);
      WriteString(s.additionalConfig);
      OneByOne(old(fields), Str(s.serverTLSKey), Str(s.clientTLSKey), Str(s.clientTLSCert), Str(s.volumeName),
               Str(s.additionalConfig));
    }

    method WriteArgs(args: seq<Bytes>)
      requires Valid() && |args| < 0x8000_0000_0000_0000
      modifies this
      ensures Valid() && fields == old(fields) + ArgFields(args)
    {
      WriteInt(|args|);
      for k := 0 to |args|
        invariant Valid() && fields == old(fields) + ([Int(|args|)] + StrFields(args[..k]))
      {
        NextArg(old(fields), args, k);
        WriteString(args[k]);
      }
      assert args[..|args|] == args;
    }

    method WriteInts(s: Settings)
      requires Valid()
      modifies this
      ensures Valid() && fields == old(fields) + IntFields(s)
    {
      WriteInt(s.cacheSizeMb);
      WriteInt(s.cacheSizePct);
      WriteInt(s.maxParallelism);
      WriteInt(s.cacheKeepDuration);
      WriteInt(s.cniMtu);
      OneByOne(old(fields), Int(s.cacheSizeMb), Int(s.cacheSizePct), Int(s.maxParallelism), Int(s.cacheKeepDuration),
               Int(s.cniMtu));
    }

    method WriteBools(s: Settings)
      requires Valid()
      modifies this
      ensures Valid() && fields == old(fields) + BoolFields(s)
    {
      WriteBool(s.useTLS);
      WriteBool(s.useTCP);
      WriteBool(s.enableProfiler);
      WriteBool(s.debug);
      OneByOne(old(fields), Bool(s.useTLS), Bool(s.useTCP), Bool(s.enableProfiler), Bool(s.debug), Bool(s.debug));
    }
  }

  lemma InOrder(s: Settings)
    requires |s.additionalArgs| < 0x8000_0000_0000_0000
    ensures var args := ArgFields(s.additionalArgs);
            [] + AddressFields(s) + KeyFields(s) + args + IntFields(s) + BoolFields(s)
            == HeadFields(s) + (args + TailFields(s))
  {
  }

  method WriteAll(s: Settings, w: Widths) returns (bytes: Bytes)
    requires |s.additionalArgs| < 0x8000_0000_0000_0000
    ensures bytes == Stream(s, w)
  {
    var sh := new SettingsHasher(w);
    sh.WriteAddresses(s);
    sh.WriteKeys(s);
    sh.WriteArgs(s.additionalArgs);
    sh.WriteInts(s);
    sh.WriteBools(s);
    InOrder(s);
    bytes := sh.written;
  }

  /** The writes of Hash; the bytes it hashes are the stream of the settings. */
  method HashInput(s: Settings) returns (bytes: Bytes)
    requires |s.additionalArgs| < 0x8000_0000_0000_0000
    ensures bytes == Stream(s, GO)
  {
    bytes := WriteAll(s, GO);
  }

  // ----- Injectivity -----

  function Power(width: nat): (p: nat)
    ensures p > 0
  {
    if width == 0 then 1 else 256 * Power(width - 1)
  }

  /** The number that bytes stand for, most significant first. */
  function Value(bs: Bytes): nat {
    if bs == [] then 0 else Value(bs[..|bs| - 1]) * 256 + bs[|bs| - 1]
  }

  /** The written bytes stand for the number, cut to their width. */
  lemma {:induction false} BigEndianValue(n: nat, width: nat)
    ensures Value(BigEndian(n, width)) == n % Power(width)
  {
    if width > 0 {
      BigEndianValue(n / 256, width - 1);
      var bs := BigEndian(n, width);
      assert bs[..|bs| - 1] == BigEndian(n / 256, width - 1);
      ModSplit(n, Power(width - 1));
    }
  }

  lemma ModSplit(n: nat, p: nat)
    requires p > 0
    ensures (n / 256) % p * 256 + n % 256 == n % (256 * p)
  {
    var q, r := n / 256, n % 256;
    var k, m := q / p, q % p;
    assert n == 256 * (k * p + m) + r;
    assert n == k * (256 * p) + (256 * m + r);
    assert 0 <= 256 * m + r < 256 * p;
    ModUnique(n, 256 * p, k, 256 * m + r);
  }

  lemma ModUnique(n: nat, d: nat, k: nat, r: nat)
    requires d > 0 && r < d && n == k * d + r
    ensures n % d == r
  {
    var k', r' := n / d, n % d;
    assert n == k' * d + r';
    assert (k - k') * d == r' - r;
    var x: int := k - k';
    assert x >= 1 ==> x * d >= d;
    assert x <= -1 ==> x * d + d <= 0;
  }

  lemma {:induction false} BigEndianInjective(m: nat, n: nat, width: nat)
    requires m < Power(width) && n < Power(width) && BigEndian(m, width) == BigEndian(n, width)
    ensures m == n
  {
    if width != 0 {
      var a, b := BigEndian(m / 256, width - 1), BigEndian(n / 256, width - 1);
      SplitEqual(a, [m % 256], b, [n % 256]);
      assert [m % 256][0] == [n % 256][0];
      BigEndianInjective(m / 256, n / 256, width - 1);
    }
  }

  lemma SplitEqual(a: Bytes, x: Bytes, b: Bytes, y: Bytes)
    requires |a| == |b| && a + x == b + y
    ensures a == b && x == y
  {
    assert a == (a + x)[..|a|] && b == (b + y)[..|b|];
    assert x == (a + x)[|a|..] && y == (b + y)[|b|..];
  }

  predicate SameKind(a: Field, b: Field) {
    a.Str? == b.Str? && a.Int? == b.Int?
  }

  /** The length of a string fits its prefix. */
  predicate Short(f: Field, w: Widths) {
    f.Str? ==> |f.s| < Power(w.length)
  }

  /** No field's bytes are a proper prefix of another's of the same kind. */
  lemma FieldPrefix(a: Field, b: Field, x: Bytes, y: Bytes, w: Widths)
    requires SameKind(a, b) && Short(a, w) && Short(b, w) && 0x1_0000_0000_0000_0000 <= Power(w.integer)
    requires Encode(a, w) + x == Encode(b, w) + y
    ensures a == b && x == y
  {
    if a.Str? {
      var m, n := BigEndian(|a.s|, w.length), BigEndian(|b.s|, w.length);
      Assoc(m, a.s, x);
      Assoc(n, b.s, y);
      SplitEqual(m, a.s + x, n, b.s + y);
      BigEndianInjective(|a.s|, |b.s|, w.length);
      SplitEqual(a.s, x, b.s, y);
    } else {
      SplitEqual(Encode(a, w), x, Encode(b, w), y);
      if a.Int? {
        BigEndianInjective(ToUint64(a.i), ToUint64(b.i), w.integer);
      }
    }
  }

  lemma EncodeCons(f: seq<Field>, x: Bytes, w: Widths)
    requires f != []
    ensures EncodeAll(f, w) + x == Encode(f[0], w) + (EncodeAll(f[1..], w) + x)
  {
    assert f == [f[0]] + f[1..];
    EncodeAppend([f[0]], f[1..], w);
    EncodeSnoc([], f[0], w);
    assert [] + [f[0]] == [f[0]];
    assert EncodeAll([], w) + Encode(f[0], w) == Encode(f[0], w);
    Assoc(Encode(f[0], w), EncodeAll(f[1..], w), x);
  }

  ghost predicate Comparable(f: seq<Field>, g: seq<Field>, w: Widths) {
    |f| == |g| && forall k :: 0 <= k < |f| ==> SameKind(f[k], g[k]) && Short(f[k], w) && Short(g[k], w)
  }

  lemma {:induction false} FieldsPrefix(f: seq<Field>, g: seq<Field>, x: Bytes, y: Bytes, w: Widths)
    requires Comparable(f, g, w) && 0x1_0000_0000_0000_0000 <= Power(w.integer)
    requires EncodeAll(f, w) + x == EncodeAll(g, w) + y
    ensures f == g && x == y
  {
    if f == [] {
      assert [] + x == x && [] + y == y;
    } else {
      FirstField(f, g, x, y, w);
      FieldsPrefix(f[1..], g[1..], x, y, w);
      assert f == [f[0]] + f[1..] && g == [g[0]] + g[1..];
    }
  }

  lemma FirstField(f: seq<Field>, g: seq<Field>, x: Bytes, y: Bytes, w: Widths)
    requires Comparable(f, g, w) && f != [] && 0x1_0000_0000_0000_0000 <= Power(w.integer)
    requires EncodeAll(f, w) + x == EncodeAll(g, w) + y
    ensures f[0] == g[0] && Comparable(f[1..], g[1..], w)
    ensures EncodeAll(f[1..], w) + x == EncodeAll(g[1..], w) + y
  {
    EncodeCons(f, x, w);
    EncodeCons(g, y, w);
    FieldPrefix(f[0], g[0], EncodeAll(f[1..], w) + x, EncodeAll(g[1..], w) + y, w);
  }

  /** Every hashed string is short enough for its length prefix. */
  predicate AllShort(s: Settings, w: Widths) {
    && |s.additionalArgs| < 0x8000_0000_0000_0000
    && (forall k :: 0 <= k < |HeadFields(s)| ==> Short(HeadFields(s)[k], w))
    && (forall k :: 0 <= k < |s.additionalArgs| ==> |s.additionalArgs[k]| < Power(w.length))
  }

  /** `t` with the three fields that are not hashed taken from `s`. */
  function WithUnhashed(t: Settings, s: Settings): Settings {
    t.(startUpLockPath := s.startUpLockPath, timeout := s.timeout, noUpdate := s.noUpdate)
  }

  lemma FieldsDetermine(s: Settings, t: Settings)
    requires HeadFields(s) == HeadFields(t) && TailFields(s) == TailFields(t)
    requires s.additionalArgs == t.additionalArgs
    ensures s == WithUnhashed(t, s)
  {
    assert AddressFields(s) == HeadFields(s)[..5] == HeadFields(t)[..5] == AddressFields(t);
    assert KeyFields(s) == HeadFields(s)[5..] == HeadFields(t)[5..] == KeyFields(t);
    assert IntFields(s) == TailFields(s)[..5] == TailFields(t)[..5] == IntFields(t);
    assert BoolFields(s) == TailFields(s)[5..] == TailFields(t)[5..] == BoolFields(t);
    assert forall k :: 0 <= k < 5 ==> AddressFields(s)[k] == AddressFields(t)[k] && KeyFields(s)[k] == KeyFields(t)[k];
    assert forall k :: 0 <= k < 5 ==> IntFields(s)[k] == IntFields(t)[k];
    assert forall k :: 0 <= k < 4 ==> BoolFields(s)[k] == BoolFields(t)[k];
  }

  /** Two streams that start with comparable fields agree on those fields and on what follows. */
  lemma FrontAgrees(f: seq<Field>, f': seq<Field>, g: seq<Field>, g': seq<Field>, w: Widths)
    requires Comparable(f, g, w) && 0x1_0000_0000_0000_0000 <= Power(w.integer)
    requires EncodeAll(f + f', w) == EncodeAll(g + g', w)
    ensures f == g && EncodeAll(f', w) == EncodeAll(g', w)
  {
    EncodeAppend(f, f', w);
    EncodeAppend(g, g', w);
    FieldsPrefix(f, g, EncodeAll(f', w), EncodeAll(g', w), w);
  }

  lemma AllAgree(f: seq<Field>, g: seq<Field>, w: Widths)
    requires Comparable(f, g, w) && 0x1_0000_0000_0000_0000 <= Power(w.integer)
    requires EncodeAll(f, w) == EncodeAll(g, w)
    ensures f == g
  {
    assert EncodeAll(f, w) + [] == EncodeAll(g, w) + [];
    FieldsPrefix(f, g, [], [], w);
  }

  lemma ArgFieldsSplit(a: seq<Bytes>, f: seq<Field>)
    requires |a| < 0x8000_0000_0000_0000
    ensures ArgFields(a) + f == [Int(|a|)] + (StrFields(a) + f)
  {
  }

  lemma CountsAgree(m: Int64, n: Int64, f: seq<Field>, g: seq<Field>, w: Widths)
    requires 0x1_0000_0000_0000_0000 <= Power(w.integer)
    requires EncodeAll([Int(m)] + f, w) == EncodeAll([Int(n)] + g, w)
    ensures m == n && EncodeAll(f, w) == EncodeAll(g, w)
  {
    EncodeAppend([Int(m)], f, w);
    EncodeAppend([Int(n)], g, w);
    EncodeOne(Int(m), w);
    EncodeOne(Int(n), w);
    FieldPrefix(Int(m), Int(n), EncodeAll(f, w), EncodeAll(g, w), w);
  }

  lemma EncodeOne(f: Field, w: Widths)
    ensures EncodeAll([f], w) == Encode(f, w)
  {
    assert [f][..0] == [];
    assert [] + Encode(f, w) == Encode(f, w);
  }

  /** The argument count is read first, and then fixes how many arguments follow. */
  lemma ArgsAgree(a: seq<Bytes>, b: seq<Bytes>, f: seq<Field>, g: seq<Field>, w: Widths)
    requires |a| < 0x8000_0000_0000_0000 && |b| < 0x8000_0000_0000_0000
    requires forall k :: 0 <= k < |a| ==> |a[k]| < Power(w.length)
    requires forall k :: 0 <= k < |b| ==> |b[k]| < Power(w.length)
    requires 0x1_0000_0000_0000_0000 <= Power(w.integer)
    requires EncodeAll(ArgFields(a) + f, w) == EncodeAll(ArgFields(b) + g, w)
    ensures a == b && EncodeAll(f, w) == EncodeAll(g, w)
  {
    ArgFieldsSplit(a, f);
    ArgFieldsSplit(b, g);
    CountsAgree(|a|, |b|, StrFields(a) + f, StrFields(b) + g, w);
    var p, q := StrFields(a), StrFields(b);
    assert Comparable(p, q, w);
    FrontAgrees(p, f, q, g, w);
    forall k | 0 <= k < |a| ensures a[k] == b[k] {
      assert p[k] == Str(b[k]);
    }
  }

  lemma EqualStreamsAgree(s: Settings, t: Settings, w: Widths)
    requires AllShort(s, w) && AllShort(t, w) && 0x1_0000_0000_0000_0000 <= Power(w.integer)
    requires Stream(s, w) == Stream(t, w)
    ensures s == WithUnhashed(t, s)
  {
    FrontAgrees(HeadFields(s), ArgFields(s.additionalArgs) + TailFields(s),
                HeadFields(t), ArgFields(t.additionalArgs) + TailFields(t), w);
    ArgsAgree(s.additionalArgs, t.additionalArgs, TailFields(s), TailFields(t), w);
    TailsComparable(s, t, w);
    AllAgree(TailFields(s), TailFields(t), w);
    FieldsDetermine(s, t);
  }

  lemma TailsComparable(s: Settings, t: Settings, w: Widths)
    ensures Comparable(TailFields(s), TailFields(t), w)
  {
    var f, g := TailFields(s), TailFields(t);
    forall k | 0 <= k < 9 ensures SameKind(f[k], g[k]) && Short(f[k], w) && Short(g[k], w) {
      assert if k < 5 then f[k].Int? && g[k].Int? else f[k].Bool? && g[k].Bool?;
    }
  }

  lemma PowersOfWord()
    ensures Power(GO.length) == 0x1_0000_0000 && Power(GO.integer) == 0x1_0000_0000_0000_0000
  {
    assert Power(4) == 0x1_0000_0000;
    assert Power(5) == 256 * Power(4);
    assert Power(6) == 256 * Power(5);
    assert Power(7) == 256 * Power(6);
    assert Power(8) == 256 * Power(7);
  }

  /**
   Settings whose strings are shorter than 2^32 bytes have equal streams exactly when they agree on
   every field but the lock path, the timeout and the update flag.
   */
  lemma StreamInjective(s: Settings, t: Settings)
    requires AllShort(s, GO) && AllShort(t, GO)
    ensures Stream(s, GO) == Stream(t, GO) <==> s == WithUnhashed(t, s)
  {
    PowersOfWord();
    if Stream(s, GO) == Stream(t, GO) {
      EqualStreamsAgree(s, t, GO);
    }
  }

  // ----- Why the bound on string lengths is needed -----

  lemma {:induction false} PowerTimes256(width: nat)
    ensures Power(width) > 0 && (width > 0 ==> Power(width) / 256 == Power(width - 1) && Power(width) % 256 == 0)
  {
    if width > 0 {
      PowerTimes256(width - 1);
    }
  }

  /** The length 2^32 is written like the length 0. */
  lemma {:induction false} LengthWraps(width: nat)
    ensures BigEndian(Power(width), width) == BigEndian(0, width)
    ensures forall k :: 0 <= k < width ==> BigEndian(0, width)[k] == 0
  {
    if width > 0 {
      PowerTimes256(width);
      LengthWraps(width - 1);
    }
  }

  lemma TwoStrings(u: Bytes, v: Bytes, w: Widths)
    ensures EncodeAll([Str(u), Str(v)], w) == Encode(Str(u), w) + Encode(Str(v), w)
  {
    assert [Str(u), Str(v)] == [] + [Str(u)] + [Str(v)];
    EncodeSnoc([] + [Str(u)], Str(v), w);
    EncodeSnoc([], Str(u), w);
  }

  lemma ZerosCommute(z: Bytes, w: Widths)
    requires |z| == Power(w.length) && forall k :: 0 <= k < |z| ==> z[k] == 0
    ensures EncodeAll([Str(z), Str([])], w) == EncodeAll([Str([]), Str(z)], w)
  {
    TwoStrings(z, [], w);
    TwoStrings([], z, w);
    LengthWraps(w.length);
    var p := BigEndian(0, w.length);
    assert (p + z) + (p + []) == (p + []) + (p + z);
  }

  /** Moving 2^32 zero bytes from one string field to the next leaves the stream as it is. */
  lemma LongStringsCollide(s: Settings, z: Bytes)
    requires |s.additionalArgs| < 0x8000_0000_0000_0000
    requires |z| == 0x1_0000_0000 && forall k :: 0 <= k < |z| ==> z[k] == 0
    ensures Stream(s.(tlsCA := z, serverTLSCert := []), GO) == Stream(s.(tlsCA := [], serverTLSCert := z), GO)
    ensures var a, b := s.(tlsCA := z, serverTLSCert := []), s.(tlsCA := [], serverTLSCert := z);
            a != WithUnhashed(b, a)
  {
    PowersOfWord();
    LongStringsCollideAt(s, z, GO);
  }

  lemma LongStringsCollideAt(s: Settings, z: Bytes, w: Widths)
    requires |s.additionalArgs| < 0x8000_0000_0000_0000
    requires |z| == Power(w.length) && forall k :: 0 <= k < |z| ==> z[k] == 0
    ensures Stream(s.(tlsCA := z, serverTLSCert := []), w) == Stream(s.(tlsCA := [], serverTLSCert := z), w)
  {
    var a, b := s.(tlsCA := z, serverTLSCert := []), s.(tlsCA := [], serverTLSCert := z);
    var common := HeadFields(a)[2..];
    var rest := common + (ArgFields(s.additionalArgs) + TailFields(s));
    assert HeadFields(a) == [Str(z), Str([])] + common && HeadFields(b) == [Str([]), Str(z)] + common;
    assert HeadFields(a) + (ArgFields(s.additionalArgs) + TailFields(s)) == [Str(z), Str([])] + rest;
    assert HeadFields(b) + (ArgFields(s.additionalArgs) + TailFields(s)) == [Str([]), Str(z)] + rest;
    EncodeAppend([Str(z), Str([])], rest, w);
    EncodeAppend([Str([]), Str(z)], rest, w);
    ZerosCommute(z, w);
  }
}
