// Long file names: how section 7 of the Microsoft FAT Specification (2005) spreads them over
// entries, and how handle of M6-fsrecov/fsrecov.c puts them together again.

module LongName {
  import opened Arith
  import opened FatEntry
  import opened FatScan
  import opened FatLayout

  // ---- writing ----

  // The i-th 16-bit unit of the name: a terminator follows it, and then padding.
  function Unit(name: seq<Byte>, i: nat): nat {
    if i < |name| then name[i] as nat else if i == |name| then 0 else 0xFFFF
  }

  function Half(u: nat, high: bool): Byte
    requires u < 0x1_0000
  {
    if high then u / 256 else u % 256
  }

  function Slots(name: seq<Byte>): nat { (|name| + 12) / 13 }

  // Byte b of the entry with ordinal o.
  function LongByte(name: seq<Byte>, sum: Byte, o: nat, b: nat): Byte
    requires 1 <= o <= 20 && b < 32
  {
    if b == 0 then (if o == Slots(name) then o + 64 else o)
    else if b <= 10 then Half(Unit(name, (o - 1) * 13 + (b - 1) / 2), b % 2 == 0)
    else if b == 11 then ATTR_LONG_NAME
    else if b == 12 then 0
    else if b == 13 then sum
    else if b <= 25 then Half(Unit(name, (o - 1) * 13 + 5 + (b - 14) / 2), b % 2 == 1)
    else if b <= 27 then 0
    else Half(Unit(name, (o - 1) * 13 + 11 + (b - 28) / 2), b % 2 == 1)
  }

  function LongEntry(name: seq<Byte>, sum: Byte, o: nat): (e: Entry)
    requires 1 <= o <= 20
    ensures forall b :: 0 <= b < 32 ==> e[b] == LongByte(name, sum, o, b)
  {
    seq(32, b requires 0 <= b < 32 => LongByte(name, sum, o, b))
  }

  // Highest ordinal first.
  function LongEntries(name: seq<Byte>, sum: Byte): (r: seq<Entry>)
    requires Slots(name) <= 20
    ensures |r| == Slots(name) && forall i :: 0 <= i < |r| ==> r[i] == LongEntry(name, sum, Slots(name) - i)
  {
    seq(Slots(name), i requires 0 <= i < Slots(name) => LongEntry(name, sum, Slots(name) - i))
  }

  // They make a group in the sense of the scan.
  lemma EncodedIsGroup(total: nat, name: seq<Byte>, short: Entry)
    requires IsBasic(total, short) && |name| <= 255
    ensures ValidGroup(total, Group(LongEntries(name, Checksum(short[..11])), short))
  {
    var g := Group(LongEntries(name, Checksum(short[..11])), short);
    forall i | 0 <= i < |g.longs| ensures ValidLong(g, i) {
      var e := g.longs[i];
      assert e[26] == 0 && e[27] == 0;
    }
  }

  // ---- reading ----

  // extract_name_from_lfn: the low bytes of the 13 units.
  function CharPos(k: nat): nat
    requires k < 13
  {
    if k < 5 then 1 + 2 * k else if k < 11 then 14 + 2 * (k - 5) else 28 + 2 * (k - 11)
  }

  function Extracted(e: Entry): (s: seq<Byte>)
    ensures |s| == 13
  {
    seq(13, k requires 0 <= k < 13 => e[CharPos(k)])
  }

  method ExtractName(e: Entry) returns (name: seq<Byte>)
    ensures name == Extracted(e) + [0]
  {
    name := [];
    for i := 0 to 5
      invariant name == Extracted(e)[..i]
    {
      name := name + [e[1 + 2 * i]];
    }
    for i := 0 to 6
      invariant name == Extracted(e)[..5 + i]
    {
      name := name + [e[14 + 2 * i]];
    }
    for i := 0 to 2
      invariant name == Extracted(e)[..11 + i]
    {
      name := name + [e[28 + 2 * i]];
    }
    name := name + [0];
  }

  // The string in a buffer: up to the first NUL.
  function CStr(s: seq<Byte>): seq<Byte> {
    if s == [] || s[0] == 0 then [] else [s[0]] + CStr(s[1..])
  }

  // The string made of the last k long-name entries, last one first.
  function Joined(longs: seq<Entry>, k: nat): seq<Byte>
    requires k <= |longs|
  {
    if k == 0 then [] else Joined(longs, k - 1) + CStr(Extracted(longs[|longs| - k]))
  }

  // strncpy(long_name, short_name, 13): two bytes more than the name has.
  function ShortName(e: Entry): seq<Byte> { CStr(e[..13]) }

  function NameOf(entries: seq<Entry>): seq<Byte>
    requires entries != []
  {
    var n := |entries| - 1;
    var long := Joined(entries[..n], n);
    if long == [] then ShortName(entries[n]) else long
  }

  // The part of handle that makes the name.
  method HandleName(entries: seq<Entry>) returns (name: seq<Byte>)
    requires entries != []
    ensures name == NameOf(entries)
  {
    var len := |entries|;
    ghost var longs := entries[..len - 1];
    name := [];
    var i := len - 2;
    while i >= 0
      invariant -1 <= i <= len - 2 && name == Joined(longs, len - 2 - i)
      decreases i
    {
      var part := ExtractName(entries[i]);
      CStrOfTerminated(Extracted(entries[i]));
      name := name + CStr(part);
      i := i - 1;
    }
    if name == [] {
      name := CStr(entries[len - 1][..13]);
    }
  }

  lemma {:induction false} CStrOfTerminated(s: seq<Byte>)
    ensures CStr(s + [0]) == CStr(s)
  {
    if s != [] && s[0] != 0 {
      assert (s + [0])[1..] == s[1..] + [0];
      CStrOfTerminated(s[1..]);
    }
  }

  // ---- the round trip ----

  predicate Ascii(name: seq<Byte>) { forall i :: 0 <= i < |name| ==> 1 <= name[i] <= 127 }

  // The characters of one entry are those of its stretch of the name.
  lemma ExtractedAt(name: seq<Byte>, sum: Byte, o: nat, k: nat)
    requires Ascii(name) && 1 <= o <= 20 && k < 13
    ensures Extracted(LongEntry(name, sum, o))[k] == Unit(name, (o - 1) * 13 + k) % 256
  {
    var e := LongEntry(name, sum, o);
    assert e[CharPos(k)] == LongByte(name, sum, o, CharPos(k));
  }

  function Least(a: nat, b: nat): nat { if a < b then a else b }

  lemma {:induction false} CStrIs(s: seq<Byte>, t: seq<Byte>)
    requires |t| <= |s| && (forall k :: 0 <= k < |t| ==> s[k] == t[k] && t[k] != 0) && (|t| < |s| ==> s[|t|] == 0)
    ensures CStr(s) == t
    decreases |t|
  {
    if t != [] { CStrIs(s[1..], t[1..]); }
  }

  lemma StretchOf(name: seq<Byte>, sum: Byte, o: nat)
    requires Ascii(name) && 1 <= o <= Slots(name) <= 20
    ensures (o - 1) * 13 <= |name|
    ensures CStr(Extracted(LongEntry(name, sum, o))) == name[(o - 1) * 13..Least(o * 13, |name|)]
  {
    hide LongEntry, Extracted, CStr;
    var from, to := (o - 1) * 13, Least(o * 13, |name|);
    var s, t := Extracted(LongEntry(name, sum, o)), name[from..to];
    forall k | 0 <= k < |t| ensures s[k] == t[k] && t[k] != 0 { ExtractedAt(name, sum, o, k); }
    if |t| < 13 { ExtractedAt(name, sum, o, |t|); }
    CStrIs(s, t);
  }

  lemma {:induction false} JoinedIs(name: seq<Byte>, sum: Byte, k: nat)
    requires Ascii(name) && Slots(name) <= 20 && k <= Slots(name)
    ensures Joined(LongEntries(name, sum), k) == name[..Least(k * 13, |name|)]
  {
    if k > 0 {
      JoinedIs(name, sum, k - 1);
      StretchOf(name, sum, k);
      assert LongEntries(name, sum)[Slots(name) - k] == LongEntry(name, sum, k);
    }
  }

  // Every name of 1 to 255 ASCII characters comes back, whether or not its last entry has room
  // for a terminator, and fits the buffer of 256 with its NUL.
  lemma NameRoundTrip(name: seq<Byte>, short: Entry)
    requires Ascii(name) && 1 <= |name| <= 255
    ensures NameOf(LongEntries(name, Checksum(short[..11])) + [short]) == name && |name| + 1 <= 256
  {
    var sum := Checksum(short[..11]);
    var longs := LongEntries(name, sum);
    assert (longs + [short])[..|longs|] == longs;
    JoinedIs(name, sum, |longs|);
    assert name[..|name|] == name;
  }

  // ---- short names ----

  lemma {:induction false} CStrCut(s: seq<Byte>, t: seq<Byte>)
    ensures CStr(s + t) == if 0 in s then CStr(s) else s + CStr(t)
    ensures 0 !in s ==> CStr(s) == s
    decreases |s|
  {
    if s != [] && s[0] != 0 {
      assert (s + t)[1..] == s[1..] + t;
      CStrCut(s[1..], t);
      assert s == [s[0]] + s[1..];
    } else if s == [] {
      assert s + t == t;
    }
  }

  // A file without long-name entries is reported under the 11 bytes of its short name if and only
  // if its attribute byte is 0 (or the name has a NUL): otherwise that byte is taken along.
  lemma ShortNameIs(total: nat, e: Entry)
    requires IsBasic(total, e)
    ensures NameOf([e]) == CStr(e[..11]) <==> Attr(e) == 0 || 0 in e[..11]
    ensures 0 !in e[..11] && Attr(e) != 0 ==> NameOf([e]) == e[..11] + [Attr(e)]
  {
    assert e[..13] == e[..11] + [e[11], e[12]];
    CStrCut(e[..11], [e[11], e[12]]);
    assert [e[11], e[12]][1..] == [e[12]];
    assert CStr([e[11], e[12]]) == if e[11] == 0 then [] else [e[11]];
    assert [e][..0] == [];
  }
}
