/**
 * Byte-level primitives shared by the decoder and the encoder: the
 * 520-byte feature report, zero padding, results of fallible parses and
 * the single-byte and fixed-length readers the parsers are built from.
 */
module Wire {

  /** Every feature report exchanged with the mouse is this long. */
  const ReportSize: nat := 520

  /** A complete feature report, as read from or written to the device. */
  type DataReport = s: seq<bv8> | |s| == ReportSize witness seq(520, _ => 0 as bv8)

  datatype Option<T> = None | Some(value: T)

  /** Why a decode failed. */
  datatype Error =
    | Truncated              // the input ended before the record did
    | UnknownPollingRate
    | UnknownEffect
    | UnknownActionTag
    | UnknownDpiSwitch
    | UnknownMacroMode
    | UnknownMediaBitmask
    | UnknownMouseButton
    | UnknownModifier
    | UnknownEventType

  datatype Result<T> = Ok(value: T) | Err(error: Error) {
    predicate IsFailure() { Err? }

    function PropagateFailure<U>(): Result<U>
      requires Err?
    {
      Err(error)
    }

    function Extract(): T
      requires Ok?
    {
      value
    }
  }

  /** A parser's outcome: the value read and the position just after it. */
  type Parsed<T> = Result<(T, nat)>

  function Zeros(n: nat): (z: seq<bv8>)
    ensures |z| == n
    ensures forall i :: 0 <= i < n ==> z[i] == 0
  {
    seq(n, _ => 0)
  }

  /** The report whose first bytes are `content` and whose remainder is zero. */
  function Padded(content: seq<bv8>): (raw: DataReport)
    requires |content| <= ReportSize
    ensures raw[..|content|] == content
    ensures forall i :: |content| <= i < ReportSize ==> raw[i] == 0
  {
    content + Zeros(ReportSize - |content|)
  }

  /** Reads the byte at `at`. */
  function Byte(inp: seq<bv8>, at: nat): (r: Parsed<bv8>)
    ensures r.Ok? <==> at < |inp|
    ensures r.Ok? ==> r.value == (inp[at], at + 1)
  {
    if |inp| <= at then Err(Truncated) else Ok((inp[at], at + 1))
  }

  /** Reads the `n` bytes from `at` on. */
  function Take(inp: seq<bv8>, at: nat, n: nat): (r: Parsed<seq<bv8>>)
    ensures r.Ok? <==> at + n <= |inp|
    ensures r.Ok? ==> r.value == (inp[at..at + n], at + n)
  {
    if |inp| < at + n then Err(Truncated) else Ok((inp[at..at + n], at + n))
  }

  /** The bytes of `inp` from position `at` on begin with `bs`. */
  predicate At(inp: seq<bv8>, at: nat, bs: seq<bv8>)
  {
    at + |bs| <= |inp| && forall j :: 0 <= j < |bs| ==> inp[at + j] == bs[j]
  }

  lemma AtAppend(inp: seq<bv8>, at: nat, a: seq<bv8>, b: seq<bv8>)
    requires At(inp, at, a + b)
    ensures At(inp, at, a) && At(inp, at + |a|, b)
  {
    forall j | 0 <= j < |a| ensures inp[at + j] == a[j] {
      assert (a + b)[j] == a[j];
    }
    forall j | 0 <= j < |b| ensures inp[at + |a| + j] == b[j] {
      assert (a + b)[|a| + j] == b[j];
    }
  }

  /** Seven pieces laid out one after the other at the start of `inp` each sit right after the ones before. */
  lemma AtSeven(inp: seq<bv8>, s0: seq<bv8>, s1: seq<bv8>, s2: seq<bv8>, s3: seq<bv8>,
                s4: seq<bv8>, s5: seq<bv8>, s6: seq<bv8>)
    requires At(inp, 0, s0 + s1 + s2 + s3 + s4 + s5 + s6)
    ensures var n1 := |s0|; var n2 := n1 + |s1|; var n3 := n2 + |s2|;
      var n4 := n3 + |s3|; var n5 := n4 + |s4|; var n6 := n5 + |s5|;
      && At(inp, 0, s0) && At(inp, n1, s1) && At(inp, n2, s2) && At(inp, n3, s3)
      && At(inp, n4, s4) && At(inp, n5, s5) && At(inp, n6, s6)
  {
    AtAppend(inp, 0, s0 + s1 + s2 + s3 + s4 + s5, s6);
    AtAppend(inp, 0, s0 + s1 + s2 + s3 + s4, s5);
    AtAppend(inp, 0, s0 + s1 + s2 + s3, s4);
    AtAppend(inp, 0, s0 + s1 + s2, s3);
    AtAppend(inp, 0, s0 + s1, s2);
    AtAppend(inp, 0, s0, s1);
  }

  /** The byte holding a number below 16. */
  function Nibble(n: int): (b: bv8)
    requires 0 <= n < 16
    ensures b as int == n
  {
    match n
    case 0 => 0x0 case 1 => 0x1 case 2 => 0x2 case 3 => 0x3
    case 4 => 0x4 case 5 => 0x5 case 6 => 0x6 case 7 => 0x7
    case 8 => 0x8 case 9 => 0x9 case 10 => 0xa case 11 => 0xb
    case 12 => 0xc case 13 => 0xd case 14 => 0xe case _ => 0xf
  }

  /** The byte holding a number below 256, its high and low nibble put together: the cast `n as u8` for a number that fits. */
  function ByteOf(n: int): (b: bv8)
    requires 0 <= n < 256
    ensures b as int == n
  {
    (Nibble(n / 16) << 4) | Nibble(n % 16)
  }

  /** A byte is fixed by the number it holds. */
  lemma ByteInjective(x: bv8, y: bv8)
    requires x as int == y as int
    ensures x == y
  {
  }

  /** High nibble of a byte. */
  function Hi(b: bv8): (h: bv8)
    ensures h < 16
  {
    b >> 4
  }

  /** Low nibble of a byte. */
  function Lo(b: bv8): (l: bv8)
    ensures l < 16
  {
    b & 0xf
  }

  /** A byte whose nibbles are `hi` and `lo`, as `hi << 4 | lo` on a u8. */
  function Pack(hi: bv8, lo: bv8): (b: bv8)
    ensures hi < 16 && lo < 16 ==> Hi(b) == hi && Lo(b) == lo
  {
    (hi << 4) | lo
  }

  /** The source also writes a packed byte as `lo | hi << 4`. */
  lemma PackCommutes(hi: bv8, lo: bv8)
    ensures lo | (hi << 4) == Pack(hi, lo)
  {
  }

  /** The bytes of every element of `s`, in order. */
  function Flatten<T>(s: seq<T>, f: T -> seq<bv8>): seq<bv8>
  {
    if |s| == 0 then [] else f(s[0]) + Flatten(s[1..], f)
  }

  /** The bytes of a non-empty flattening are those of its first element followed by those of the rest. */
  lemma AtFlattenHead<T>(inp: seq<bv8>, at: nat, s: seq<T>, f: T -> seq<bv8>)
    requires 0 < |s| && At(inp, at, Flatten(s, f))
    ensures At(inp, at, f(s[0])) && At(inp, at + |f(s[0])|, Flatten(s[1..], f))
  {
    AtAppend(inp, at, f(s[0]), Flatten(s[1..], f));
  }

  lemma {:induction false} FlattenSnoc<T>(s: seq<T>, x: T, f: T -> seq<bv8>)
    ensures Flatten(s + [x], f) == Flatten(s, f) + f(x)
  {
    if |s| == 0 {
      assert s + [x] == [x];
      assert Flatten([x][1..], f) == [];
    } else {
      assert (s + [x])[1..] == s[1..] + [x];
      FlattenSnoc(s[1..], x, f);
    }
  }

  lemma {:induction false} FlattenLength<T>(s: seq<T>, f: T -> seq<bv8>, k: nat)
    requires forall x :: |f(x)| == k
    ensures |Flatten(s, f)| == k * |s|
  {
    if |s| > 0 {
      FlattenLength(s[1..], f, k);
    }
  }
}
