/** The text form of a record identifier, as the database driver writes and
    reads it. `ID.String()` renders the 16 bytes as 32 lower-case hex digits in
    the groups 8-4-4-4-12; `UnmarshalText` (and the driver's marshalling of a
    string bound to a uuid column) accepts 32 hex digits of either case, with a
    '-' allowed wherever an even number of digits has been read so far. */
module UuidText {
  import opened Wrappers

  type Byte = x: int | 0 <= x < 256
  type Nibble = x: int | 0 <= x < 16

  /** A 128-bit identifier, most significant byte first. */
  type Uuid = s: seq<Byte> | |s| == 16 witness seq(16, i => 0)

  // ---------------------------------------------------------------------------
  // Rendering

  function HexDigit(d: Nibble): char
  {
    if d < 10 then ('0' as int + d) as char else ('a' as int + d - 10) as char
  }

  /** Two hex digits per byte, high nibble first. */
  function Hex(bs: seq<Byte>): (s: string)
    ensures |s| == 2 * |bs|
  {
    if bs == [] then [] else [HexDigit(bs[0] / 16), HexDigit(bs[0] % 16)] + Hex(bs[1..])
  }

  /** `UUID.String()`: 8-4-4-4-12 hex digits separated by dashes. */
  function Format(u: Uuid): (s: string)
    ensures |s| == 36
  {
    Hex(u[..4]) + ("-" + (Hex(u[4..6]) + ("-" + (Hex(u[6..8]) + ("-" + (Hex(u[8..10]) + ("-" + Hex(u[10..]))))))))
  }

  // ---------------------------------------------------------------------------
  // Parsing

  function HexValue(c: char): Option<Nibble>
  {
    if '0' <= c <= '9' then Some(c as int - '0' as int)
    else if 'a' <= c <= 'f' then Some(c as int - 'a' as int + 10)
    else if 'A' <= c <= 'F' then Some(c as int - 'A' as int + 10)
    else None
  }

  /** The digits of `s`, read after `j` digits have already been read: a dash is
      skipped when `j` is even, a hex digit is taken while fewer than 32 have been
      read, and any other character rejects the text. */
  function Nibbles(s: string, j: nat): (r: Option<seq<Nibble>>)
    ensures r.Some? && j <= 32 ==> j + |r.value| <= 32
  {
    if s == [] then Some([])
    else if s[0] == '-' && j % 2 == 0 then Nibbles(s[1..], j)
    else if HexValue(s[0]).Some? && j < 32 then
      Prepend([HexValue(s[0]).value], Nibbles(s[1..], j + 1))
    else None
  }

  function Prepend(p: seq<Nibble>, r: Option<seq<Nibble>>): Option<seq<Nibble>>
  {
    match r
    case None => None
    case Some(ns) => Some(p + ns)
  }

  /** Pairs of nibbles back into bytes, high nibble first. */
  function Pack(ns: seq<Nibble>): (bs: seq<Byte>)
    ensures |bs| == |ns| / 2
  {
    if |ns| < 2 then []
    else
      var b: Byte := (ns[0] as int) * 16 + ns[1] as int;
      [b] + Pack(ns[2..])
  }

  /** `ParseUUID`: exactly 32 hex digits, dashes only at even digit counts;
      a text shorter than 32 characters is refused. */
  function Parse(s: string): (r: Option<Uuid>)
    ensures r.Some? ==> 32 <= |s|
  {
    NibblesLength(s, 0);
    match Nibbles(s, 0)
    case Some(ns) => if |ns| == 32 then Some(Pack(ns)) else None
    case None => None
  }

  /** Each digit read comes from one character of the text. */
  lemma {:induction false} NibblesLength(s: string, j: nat)
    ensures Nibbles(s, j).Some? ==> |Nibbles(s, j).value| <= |s|
  {
    if s != [] {
      if s[0] == '-' && j % 2 == 0 {
        NibblesLength(s[1..], j);
      } else if HexValue(s[0]).Some? && j < 32 {
        NibblesLength(s[1..], j + 1);
      }
    }
  }

  /** A character that is neither a dash nor a hex digit rejects the text,
      wherever it stands. */
  lemma {:induction false} NibblesRejectBadChar(s: string, j: nat, i: nat)
    requires i < |s| && s[i] != '-' && HexValue(s[i]).None?
    ensures Nibbles(s, j).None?
  {
    if i > 0 {
      assert s[1..][i - 1] == s[i];
      if s[0] == '-' && j % 2 == 0 {
        NibblesRejectBadChar(s[1..], j, i - 1);
      } else if HexValue(s[0]).Some? && j < 32 {
        NibblesRejectBadChar(s[1..], j + 1, i - 1);
      }
    }
  }

  /** A text holding a character other than a dash or a hex digit is not an
      identifier. */
  lemma ParseRejectsBadChar(s: string, i: nat)
    requires i < |s| && s[i] != '-' && HexValue(s[i]).None?
    ensures Parse(s).None?
  {
    NibblesRejectBadChar(s, 0, i);
  }

  // ---------------------------------------------------------------------------
  // Round trip

  /** The nibbles of a byte string, high nibble first. */
  function Unpack(bs: seq<Byte>): (ns: seq<Nibble>)
    ensures |ns| == 2 * |bs|
  {
    if bs == [] then [] else [bs[0] / 16, bs[0] % 16] + Unpack(bs[1..])
  }

  lemma {:induction false} PackUnpack(bs: seq<Byte>)
    ensures Pack(Unpack(bs)) == bs
  {
    if bs != [] {
      assert Unpack(bs)[2..] == Unpack(bs[1..]);
      PackUnpack(bs[1..]);
    }
  }

  lemma {:induction false} UnpackAppend(a: seq<Byte>, b: seq<Byte>)
    ensures Unpack(a + b) == Unpack(a) + Unpack(b)
  {
    if a != [] {
      assert (a + b)[0] == a[0];
      assert (a + b)[1..] == a[1..] + b;
      UnpackAppend(a[1..], b);
      var h := [a[0] / 16, a[0] % 16];
      assert Unpack(a + b) == h + (Unpack(a[1..]) + Unpack(b));
      assert h + (Unpack(a[1..]) + Unpack(b)) == (h + Unpack(a[1..])) + Unpack(b);
    } else {
      assert a + b == b;
    }
  }

  /** Reading the hex digits of `bs` yields the nibbles of `bs` and then
      whatever the rest of the text yields. */
  lemma {:induction false} NibblesOfHex(bs: seq<Byte>, rest: string, j: nat)
    requires j + 2 * |bs| <= 32
    ensures Nibbles(Hex(bs) + rest, j) == Prepend(Unpack(bs), Nibbles(rest, j + 2 * |bs|))
  {
    if bs != [] {
      var hi, lo := HexDigit(bs[0] / 16), HexDigit(bs[0] % 16);
      var s := Hex(bs) + rest;
      assert s == [hi] + ([lo] + (Hex(bs[1..]) + rest));
      assert HexValue(hi) == Some(bs[0] / 16);
      assert HexValue(lo) == Some(bs[0] % 16);
      assert s[1..] == [lo] + (Hex(bs[1..]) + rest);
      assert s[2..] == Hex(bs[1..]) + rest;
      var tail := Nibbles(rest, j + 2 * |bs|);
      NibblesOfHex(bs[1..], rest, j + 2);
      assert Nibbles(s[2..], j + 2) == Prepend(Unpack(bs[1..]), tail);
      assert Nibbles(s[1..], j + 1) == Prepend([bs[0] % 16], Nibbles(s[2..], j + 2));
      assert Nibbles(s, j) == Prepend([bs[0] / 16], Nibbles(s[1..], j + 1));
      PrependTwice([bs[0] % 16], Unpack(bs[1..]), tail);
      PrependTwice([bs[0] / 16], [bs[0] % 16] + Unpack(bs[1..]), tail);
      assert [bs[0] / 16] + ([bs[0] % 16] + Unpack(bs[1..])) == Unpack(bs);
    } else {
      assert Hex(bs) + rest == rest;
      var r := Nibbles(rest, j);
      assert r.Some? ==> [] + r.value == r.value;
    }
  }

  lemma NibblesOfDash(rest: string, j: nat)
    requires j % 2 == 0
    ensures Nibbles("-" + rest, j) == Nibbles(rest, j)
  {
    assert ("-" + rest)[1..] == rest;
  }

  lemma PrependTwice(a: seq<Nibble>, b: seq<Nibble>, r: Option<seq<Nibble>>)
    ensures Prepend(a, Prepend(b, r)) == Prepend(a + b, r)
  {
    if r.Some? { assert a + (b + r.value) == (a + b) + r.value; }
  }

  /** A dash followed by a group of hex digits, read at an even digit count. */
  lemma DashGroup(p: seq<Byte>, rest: string, j: nat, n: seq<Nibble>)
    requires j % 2 == 0 && j + 2 * |p| <= 32
    requires Nibbles(rest, j + 2 * |p|) == Some(n)
    ensures Nibbles("-" + (Hex(p) + rest), j) == Some(Unpack(p) + n)
  {
    NibblesOfDash(Hex(p) + rest, j);
    NibblesOfHex(p, rest, j);
  }

  /** Reading the four dash-and-group pieces after the first group: the
      nibbles of the four groups in order. */
  lemma TailGroups(p2: seq<Byte>, p3: seq<Byte>, p4: seq<Byte>, p5: seq<Byte>)
    requires |p2| == 2 && |p3| == 2 && |p4| == 2 && |p5| == 6
    ensures Nibbles("-" + (Hex(p2) + ("-" + (Hex(p3) + ("-" + (Hex(p4) + ("-" + Hex(p5))))))), 8)
         == Some(Unpack(p2) + (Unpack(p3) + (Unpack(p4) + (Unpack(p5) + []))))
  {
    var t5 := "-" + (Hex(p5) + []);
    assert Hex(p5) + [] == Hex(p5);
    assert Nibbles([], 32) == Some([]);
    DashGroup(p5, [], 20, []);
    var t4 := "-" + (Hex(p4) + t5);
    DashGroup(p4, t5, 16, Unpack(p5) + []);
    var t3 := "-" + (Hex(p3) + t4);
    DashGroup(p3, t4, 12, Unpack(p4) + (Unpack(p5) + []));
    DashGroup(p2, t3, 8, Unpack(p3) + (Unpack(p4) + (Unpack(p5) + [])));
  }

  /** The text the driver writes for an identifier is read back as the same
      identifier: a `next_page_token` or `prev_page_token` handed to a client
      and sent back is accepted and names the same row. */
  lemma {:induction false} ParseFormat(u: Uuid)
    ensures Parse(Format(u)) == Some(u)
  {
    var p1, p2, p3, p4, p5 := u[..4], u[4..6], u[6..8], u[8..10], u[10..];
    var t2 := "-" + (Hex(p2) + ("-" + (Hex(p3) + ("-" + (Hex(p4) + ("-" + Hex(p5)))))));
    assert Format(u) == Hex(p1) + t2;
    TailGroups(p2, p3, p4, p5);
    NibblesOfHex(p1, t2, 0);
    var n := Unpack(p1) + (Unpack(p2) + (Unpack(p3) + (Unpack(p4) + (Unpack(p5) + []))));
    assert Nibbles(Format(u), 0) == Some(n);
    UnpackAppend(p1, p2);
    UnpackAppend(p1 + p2, p3);
    UnpackAppend(p1 + p2 + p3, p4);
    UnpackAppend(p1 + p2 + p3 + p4, p5);
    assert p1 + p2 + p3 + p4 + p5 == u;
    assert n == Unpack(p1) + Unpack(p2) + Unpack(p3) + Unpack(p4) + Unpack(p5);
    assert n == Unpack(u);
    PackUnpack(u);
  }
}
