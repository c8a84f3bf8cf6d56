/** Base64 with the standard alphabet and padding: section 4 of RFC 4648. */
module Base64 {
  import opened Wrappers

  type byte = x: int | 0 <= x < 256

  /** The character for a 6-bit group. */
  function Char64(i: nat): char
    requires i < 64
  {
    if i < 26 then 'A' + i as char
    else if i < 52 then 'a' + (i - 26) as char
    else if i < 62 then '0' + (i - 52) as char
    else if i == 62 then '+' else '/'
  }

  function Index64(c: char): (r: Option<nat>)
    ensures r.Some? ==> r.value < 64
  {
    if 'A' <= c <= 'Z' then Some(c as int - 'A' as int)
    else if 'a' <= c <= 'z' then Some(c as int - 'a' as int + 26)
    else if '0' <= c <= '9' then Some(c as int - '0' as int + 52)
    else if c == '+' then Some(62) else if c == '/' then Some(63) else None
  }

  lemma CharIndex(i: nat)
    requires i < 64
    ensures Index64(Char64(i)) == Some(i) && Char64(i) != '='
  {
  }

  /** Table 1 of RFC 4648: capital letters, small letters, digits, plus and slash, each row in its own order. */
  lemma Alphabet(i: nat)
    requires i < 64
    ensures Char64(0) == 'A' && Char64(25) == 'Z' && Char64(26) == 'a' && Char64(51) == 'z'
    ensures Char64(52) == '0' && Char64(61) == '9' && Char64(62) == '+' && Char64(63) == '/'
    ensures i !in {25, 51, 61, 62, 63} ==> Char64(i + 1) as int == Char64(i) as int + 1
  {
  }

  /** A character has an index exactly if it is that of an index. */
  lemma IndexExactly(c: char)
    ensures Index64(c).Some? ==> Char64(Index64(c).value) == c
    ensures Index64(c).None? ==> forall i: nat :: i < 64 ==> Char64(i) != c
  {
    forall i: nat | i < 64 && Char64(i) == c ensures Index64(c) == Some(i) { CharIndex(i); }
  }

  /** The four characters of up to three bytes. */
  function Group(data: seq<byte>): string
    requires 1 <= |data| <= 3
  {
    var a, b, c := data[0], if |data| > 1 then data[1] else 0, if |data| > 2 then data[2] else 0;
    [Char64(a / 4), Char64(a % 4 * 16 + b / 16),
     if |data| > 1 then Char64(b % 16 * 4 + c / 64) else '=',
     if |data| > 2 then Char64(c % 64) else '=']
  }

  /** The characters of three bytes stand for the same number of 24 bits, the first for the highest. */
  lemma GroupValue(a: byte, b: byte, c: byte)
    ensures var g := Group([a, b, c]);
            && (forall k :: 0 <= k < 4 ==> Index64(g[k]).Some?)
            && 262144 * Index64(g[0]).value + 4096 * Index64(g[1]).value + 64 * Index64(g[2]).value
               + Index64(g[3]).value == 65536 * a + 256 * b + c
  {
    CharIndex(a / 4);
    CharIndex(a % 4 * 16 + b / 16);
    CharIndex(b % 16 * 4 + c / 64);
    CharIndex(c % 64);
    hide Char64, Index64;
  }

  /** A shorter last group is that of the bytes with zeros added, its surplus characters replaced by padding. */
  lemma ShortGroup(a: byte, b: byte)
    ensures Group([a, b]) == Group([a, b, 0])[..3] + "=" && Group([a]) == Group([a, 0, 0])[..2] + "=="
  {
  }

  function Encode(data: seq<byte>): (e: string)
    ensures |e| == (|data| + 2) / 3 * 4
  {
    if data == [] then [] else if |data| <= 3 then Group(data) else Group(data[..3]) + Encode(data[3..])
  }

  /** The bytes of four characters; padding is for the last four only. Unused low bits are ignored. */
  function Ungroup(e: string, last: bool): (r: Option<seq<byte>>)
    requires |e| == 4
    ensures r.Some? ==> |r.value| == 3 - Padding(e) && (!last ==> Padding(e) == 0)
  {
    var a, b, c, d := Index64(e[0]), Index64(e[1]), Index64(e[2]), Index64(e[3]);
    if a.None? || b.None? then None
    else if c.Some? && d.Some? then
      Some([a.value * 4 + b.value / 16, b.value % 16 * 16 + c.value / 4, c.value % 4 * 64 + d.value])
    else if last && c.Some? && e[3] == '=' then Some([a.value * 4 + b.value / 16, b.value % 16 * 16 + c.value / 4])
    else if last && e[2] == '=' && e[3] == '=' then Some([a.value * 4 + b.value / 16])
    else None
  }

  /** Strict decoding: `None` for text that is not base64. */
  function Decode(e: string): Option<seq<byte>> {
    if e == [] then Some([])
    else if |e| < 4 then None
    else
      var first := Ungroup(e[..4], |e| == 4);
      var rest := Decode(e[4..]);
      if first.None? || rest.None? then None else Some(first.value + rest.value)
  }

  // ---- the size computed beforehand ----

  /** The number of trailing padding characters. */
  function Padding(e: string): (n: nat)
    ensures n <= |e| && forall i :: |e| - n <= i < |e| ==> e[i] == '='
    ensures n < |e| ==> e[|e| - n - 1] != '='
  {
    if e == [] || e[|e| - 1] != '=' then 0 else 1 + Padding(e[..|e| - 1])
  }

  /** `_base64_payload_size`: `None` for text that is refused. */
  function PayloadSize(e: string): Option<int> {
    if |e| % 4 != 0 then None
    else
      var padding := Padding(e);
      if padding > 2 || (padding > 0 && '=' in e[..|e| - padding]) then None else Some(|e| / 4 * 3 - padding)
  }

  lemma Bits(a: byte, b: byte, c: byte)
    ensures a / 4 * 4 + (a % 4 * 16 + b / 16) / 16 == a
    ensures (a % 4 * 16 + b / 16) % 16 * 16 + (b % 16 * 4 + c / 64) / 4 == b
    ensures (b % 16 * 4 + c / 64) % 4 * 64 + c % 64 == c
  {
  }

  /** What four characters, or three and a padding, are worth. */
  lemma UngroupChars(w: nat, x: nat, y: nat, z: nat, last: bool)
    requires w < 64 && x < 64 && y < 64 && z < 64
    ensures Ungroup([Char64(w), Char64(x), Char64(y), Char64(z)], last)
            == Some([w * 4 + x / 16, x % 16 * 16 + y / 4, y % 4 * 64 + z])
    ensures Ungroup([Char64(w), Char64(x), Char64(y), '='], true) == Some([w * 4 + x / 16, x % 16 * 16 + y / 4])
  {
    CharIndex(w);
    CharIndex(x);
    CharIndex(y);
    CharIndex(z);
    assert Index64('=').None?;
    hide Index64, Char64, Padding;
  }

  lemma ThreeBytes(a: byte, b: byte, c: byte, last: bool)
    ensures Ungroup(Group([a, b, c]), last) == Some([a, b, c])
  {
    Bits(a, b, c);
    hide Ungroup, Char64;
    UngroupChars(a / 4, a % 4 * 16 + b / 16, b % 16 * 4 + c / 64, c % 64, last);
  }

  lemma TwoBytes(a: byte, b: byte)
    ensures Ungroup(Group([a, b]), true) == Some([a, b])
  {
    var w, x, y := a / 4, a % 4 * 16 + b / 16, b % 16 * 4;
    hide Ungroup, Char64;
    assert Group([a, b]) == [Char64(w), Char64(x), Char64(y), '='];
    UngroupChars(w, x, y, 0, true);
    assert w * 4 + x / 16 == a && x % 16 * 16 + y / 4 == b by { Bits(a, b, 0); }
  }

  lemma OneByte(a: byte)
    ensures Ungroup(Group([a]), true) == Some([a])
  {
    CharIndex(a / 4);
    CharIndex(a % 4 * 16 + 0 / 16);
    Bits(a, 0, 0);
    assert Index64('=').None?;
    hide Index64, Char64, Padding;
  }

  lemma GroupRoundTrip(data: seq<byte>, last: bool)
    requires 1 <= |data| <= 3 && (|data| < 3 ==> last)
    ensures Ungroup(Group(data), last) == Some(data)
  {
    hide Group, Ungroup;
    if |data| == 3 {
      ThreeBytes(data[0], data[1], data[2], last);
      assert data == [data[0], data[1], data[2]];
    } else if |data| == 2 {
      TwoBytes(data[0], data[1]);
      assert data == [data[0], data[1]];
    } else {
      OneByte(data[0]);
      assert data == [data[0]];
    }
  }

  /** Decoding gives back what was encoded. */
  lemma {:induction false} RoundTrip(data: seq<byte>)
    ensures Decode(Encode(data)) == Some(data)
    decreases |data|
  {
    if data == [] {
    } else if |data| <= 3 {
      GroupRoundTrip(data, true);
      assert Encode(data)[..4] == Group(data) && Encode(data)[4..] == [];
      assert data + [] == data;
    } else {
      GroupRoundTrip(data[..3], false);
      RoundTrip(data[3..]);
      var e := Encode(data);
      assert e[..4] == Group(data[..3]) && e[4..] == Encode(data[3..]);
      assert data[..3] + data[3..] == data;
    }
  }

  lemma NoPaddingInside(e: string)
    requires |e| == 4
    ensures Ungroup(e, true).Some? ==> Padding(e) <= 2 && forall i :: 0 <= i < 4 - Padding(e) ==> e[i] != '='
    ensures Ungroup(e, false).Some? ==> Padding(e) == 0 && Ungroup(e, true).Some?
  {
  }

  lemma PaddingIs(e: string, n: nat)
    requires n < |e| && e[|e| - n - 1] != '=' && forall i :: |e| - n <= i < |e| ==> e[i] == '='
    ensures Padding(e) == n
  {
    var m, at := Padding(e), |e| - n - 1;
    assert e[at] != '=';
  }

  lemma PaddingAtEnd(front: string, back: string)
    requires Padding(back) < |back|
    ensures Padding(front + back) == Padding(back)
  {
    var e, n := front + back, Padding(back);
    assert e[|e| - n - 1] == back[|back| - n - 1];
    forall i | |e| - n <= i < |e| ensures e[i] == '=' { assert e[i] == back[i - |front|]; }
    PaddingIs(e, n);
  }

  /** Padding stands at the end only, and there is little of it. */
  ghost predicate WellPadded(e: string) {
    |e| % 4 == 0 && Padding(e) <= 2 && forall i :: 0 <= i < |e| - Padding(e) ==> e[i] != '='
  }

  lemma WellPaddedLonger(front: string, back: string)
    requires |front| == 4 && (forall c <- front :: c != '=') && WellPadded(back) && back != []
    ensures WellPadded(front + back) && Padding(front + back) == Padding(back)
  {
    PaddingAtEnd(front, back);
    var e := front + back;
    forall i | 0 <= i < |e| - Padding(e) ensures e[i] != '=' {
      if i < 4 { assert e[i] == front[i] && front[i] in front; } else { assert e[i] == back[i - 4]; }
    }
  }

  /** A text in groups of four, with one or two padding characters and no other, or none at its end. */
  ghost predicate PaddedText(e: string, body: string, padding: string) {
    && e == body + padding && |e| % 4 == 0
    && |padding| <= 2 && (forall i :: 0 <= i < |padding| ==> padding[i] == '=')
    && if padding == "" then body == "" || body[|body| - 1] != '=' else '=' !in body
  }

  /** Text has a size exactly if it is padded like this. Text without padding at its end is not looked at further. */
  lemma PayloadSizeExactly(e: string)
    ensures PayloadSize(e).Some? ==> exists body, padding :: PaddedText(e, body, padding)
    ensures forall body, padding :: PaddedText(e, body, padding) ==> PayloadSize(e) == Some(|e| / 4 * 3 - |padding|)
  {
    hide PayloadSize, PaddedText;
    if PayloadSize(e).Some? { HasPadding(e); }
    forall body, padding | PaddedText(e, body, padding) ensures PayloadSize(e) == Some(|e| / 4 * 3 - |padding|) {
      SizeOfPadded(e, body, padding);
    }
  }

  lemma HasPadding(e: string)
    requires PayloadSize(e).Some?
    ensures PaddedText(e, e[..|e| - Padding(e)], e[|e| - Padding(e)..])
  {
    hide Padding, PaddedText;
    var n := |e| - Padding(e);
    var body, padding := e[..n], e[n..];
    assert e == body + padding;
    assert |e| % 4 == 0 && |padding| <= 2;
    assert forall i :: 0 <= i < |padding| ==> padding[i] == '=';
    IsPadded(e, body, padding);
  }

  lemma IsPadded(e: string, body: string, padding: string)
    requires e == body + padding && |e| % 4 == 0
    requires |padding| <= 2 && forall i :: 0 <= i < |padding| ==> padding[i] == '='
    requires if padding == "" then body == "" || body[|body| - 1] != '=' else '=' !in body
    ensures PaddedText(e, body, padding)
  {
  }

  lemma SizeOfPadded(e: string, body: string, padding: string)
    requires PaddedText(e, body, padding)
    ensures PayloadSize(e) == Some(|e| / 4 * 3 - |padding|)
  {
    assert body != [] ==> body[|body| - 1] in body;
    PaddingOf(body, padding);
  }

  lemma PaddingOf(body: string, padding: string)
    requires (forall i :: 0 <= i < |padding| ==> padding[i] == '=') && (body == "" || body[|body| - 1] != '=')
    ensures Padding(body + padding) == |padding| && (body + padding)[..|body|] == body
  {
    hide Padding;
    var e := body + padding;
    assert e[..|body|] == body;
    assert forall i :: |body| <= i < |e| ==> e[i] == padding[i - |body|] == '=';
    assert forall i :: 0 <= i < |body| ==> e[i] == body[i];
  }

  lemma SizeOfWellPadded(e: string)
    requires WellPadded(e)
    ensures PayloadSize(e) == Some(|e| / 4 * 3 - Padding(e))
  {
  }

  lemma InnerGroup(e: string)
    requires |e| == 4 && Ungroup(e, false).Some?
    ensures |Ungroup(e, false).value| == 3 && forall c <- e :: c != '='
  {
    NoPaddingInside(e);
  }

  /** Whatever decodes has exactly the size computed beforehand, and padding only at its end. */
  lemma {:induction false} SizeIsRight(e: string)
    requires Decode(e).Some?
    ensures WellPadded(e) && PayloadSize(e) == Some(|Decode(e).value|) && |Decode(e).value| == |e| / 4 * 3 - Padding(e)
    decreases |e|
  {
    hide Ungroup, PayloadSize;
    if e != [] {
      var front, back := e[..4], e[4..];
      assert front + back == e;
      SizeIsRight(back);
      if back == [] {
        NoPaddingInside(front);
      } else {
        InnerGroup(front);
        WellPaddedLonger(front, back);
      }
    }
    SizeOfWellPadded(e);
  }

  /** So the size of an encoding is that of what was encoded. */
  lemma EncodedSize(data: seq<byte>)
    ensures PayloadSize(Encode(data)) == Some(|data|)
  {
    RoundTrip(data);
    SizeIsRight(Encode(data));
  }
}
