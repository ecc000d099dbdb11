/**
 * The wire format of the archive files: every message is written as the base-128 varint
 * of its length followed by its bytes (Protocol Buffers Encoding, section "Base 128
 * Varints").  The decoder is the reference reader that a consumer of the files runs.
 */
module Framing {
  import opened Wrappers

  type Byte = b: int | 0 <= b < 256
  type Bytes = seq<Byte>

  // Seven bits at a time, least significant first; the high bit says that more follow.
  function Uvarint(n: nat): (s: Bytes)
    ensures |s| > 0
  {
    if n < 128 then [n] else [n % 128 + 128] + Uvarint(n / 128)
  }

  datatype Varint = Varint(value: nat, size: nat)

  // Reads one varint from the front, or None when the bytes end inside it.
  function ReadUvarint(s: Bytes): (v: Option<Varint>)
    ensures v.Some? ==> 0 < v.value.size <= |s|
  {
    if |s| == 0 then None
    else if s[0] < 128 then Some(Varint(s[0], 1))
    else match ReadUvarint(s[1..])
      case None => None
      case Some(v) => Some(Varint(s[0] - 128 + 128 * v.value, 1 + v.size))
  }

  // The bytes of one message: header, then body.
  function Frame(m: Bytes): (s: Bytes)
    ensures |s| > |m|
  {
    Uvarint(|m|) + m
  }

  function Frames(ms: seq<Bytes>): Bytes {
    if |ms| == 0 then [] else Frame(ms[0]) + Frames(ms[1..])
  }

  // Reads messages until the end of the bytes; None when they end inside a message.
  function Decode(s: Bytes): Option<seq<Bytes>>
    decreases |s|
  {
    if |s| == 0 then Some([])
    else match ReadUvarint(s)
      case None => None
      case Some(v) =>
        if |s| < v.size + v.value then None
        else match Decode(s[v.size + v.value..])
          case None => None
          case Some(rest) => Some([s[v.size..v.size + v.value]] + rest)
  }

  lemma {:induction false} ReadsUvarint(n: nat, tail: Bytes)
    ensures ReadUvarint(Uvarint(n) + tail) == Some(Varint(n, |Uvarint(n)|))
  {
    var s := Uvarint(n) + tail;
    if n >= 128 {
      ReadsUvarint(n / 128, tail);
      assert s[1..] == Uvarint(n / 128) + tail;
    }
  }

  lemma {:induction false} ReadsNoPartOfUvarint(n: nat, cut: nat)
    requires cut < |Uvarint(n)|
    ensures ReadUvarint(Uvarint(n)[..cut]) == None
  {
    if n >= 128 && cut > 0 {
      ReadsNoPartOfUvarint(n / 128, cut - 1);
      assert Uvarint(n)[..cut][1..] == Uvarint(n / 128)[..cut - 1];
    }
  }

  // Decoding is stepwise: a whole frame in front is read as one message.
  lemma DecodeFrame(m: Bytes, tail: Bytes)
    ensures Decode(Frame(m) + tail) ==
            match Decode(tail) case None => None case Some(rest) => Some([m] + rest)
  {
    var s := Frame(m) + tail;
    ReadsUvarint(|m|, m + tail);
    assert s == Uvarint(|m|) + (m + tail);
    var size := |Uvarint(|m|)|;
    assert s[size..size + |m|] == m;
    assert s[size + |m|..] == tail;
  }

  // What is written for a sequence of messages decodes to exactly that sequence.
  lemma {:induction false} RoundTrip(ms: seq<Bytes>)
    ensures Decode(Frames(ms)) == Some(ms)
  {
    if |ms| > 0 {
      RoundTrip(ms[1..]);
      DecodeFrame(ms[0], Frames(ms[1..]));
      assert [ms[0]] + ms[1..] == ms;
    }
  }

  lemma FramesInjective(a: seq<Bytes>, b: seq<Bytes>)
    requires Frames(a) == Frames(b)
    ensures a == b
  {
    RoundTrip(a);
    RoundTrip(b);
  }

  lemma Associative(a: Bytes, b: Bytes, c: Bytes)
    ensures a + (b + c) == (a + b) + c
  {
  }

  lemma {:induction false} FramesAppend(a: seq<Bytes>, b: seq<Bytes>)
    ensures Frames(a + b) == Frames(a) + Frames(b)
  {
    if |a| == 0 {
      assert a + b == b;
    } else {
      FramesAppend(a[1..], b);
      assert (a + b)[1..] == a[1..] + b;
      Associative(Frame(a[0]), Frames(a[1..]), Frames(b));
    }
  }

  lemma FramesSnoc(a: seq<Bytes>, m: Bytes)
    ensures Frames(a + [m]) == Frames(a) + Frame(m)
  {
    FramesAppend(a, [m]);
    assert Frames([m]) == Frame(m) + Frames([]);
  }

  // A cut that falls strictly inside a frame is noticed, whatever it cuts.
  lemma CutFrame(m: Bytes, cut: nat)
    requires 0 < cut < |Frame(m)|
    ensures Decode(Frame(m)[..cut]) == None
  {
    var s := Frame(m)[..cut];
    var size := |Uvarint(|m|)|;
    if cut < size {
      ReadsNoPartOfUvarint(|m|, cut);
      assert s == Uvarint(|m|)[..cut];
    } else {
      ReadsUvarint(|m|, m[..cut - size]);
      assert s == Uvarint(|m|) + m[..cut - size];
    }
  }

  // Before the end of its first frame a file decodes only when nothing is left of it.
  lemma CutBeforeFirst(ms: seq<Bytes>, cut: nat)
    requires cut <= |Frames(ms)| && (|ms| > 0 ==> cut < |Frame(ms[0])|)
    ensures Decode(Frames(ms)[..cut]) == if cut == 0 then Some([]) else None
  {
    if |ms| > 0 && cut > 0 {
      CutFrame(ms[0], cut);
      assert Frames(ms)[..cut] == Frame(ms[0])[..cut];
    }
  }

  lemma FramesOfPrefix(ms: seq<Bytes>, k: nat)
    requires 0 < k <= |ms|
    ensures ms[..k] == [ms[0]] + ms[1..][..k - 1]
    ensures |Frames(ms[..k])| == |Frame(ms[0])| + |Frames(ms[1..][..k - 1])|
  {
    assert ms[..k][1..] == ms[1..][..k - 1];
  }

  lemma DecodeCut(m: Bytes, tail: Bytes, cut: nat)
    requires cut <= |tail|
    ensures Decode((Frame(m) + tail)[..|Frame(m)| + cut]) ==
            match Decode(tail[..cut]) case None => None case Some(rest) => Some([m] + rest)
  {
    hide Frame, Decode;
    assert (Frame(m) + tail)[..|Frame(m)| + cut] == Frame(m) + tail[..cut];
    DecodeFrame(m, tail[..cut]);
  }

  // A prefix of the file decodes to the first k messages when it ends at the end of the
  // k-th frame, and is detected as incomplete when it ends between two such points.
  lemma {:induction false} PrefixDecodes(ms: seq<Bytes>, k: nat, cut: nat)
    requires k <= |ms| && cut <= |Frames(ms)|
    requires |Frames(ms[..k])| <= cut && (k < |ms| ==> cut < |Frames(ms[..k + 1])|)
    ensures Decode(Frames(ms)[..cut]) ==
            if cut == |Frames(ms[..k])| then Some(ms[..k]) else None
    decreases k, 1
  {
    if k < |ms| {
      FramesOfPrefix(ms, k + 1);
    }
    if k == 0 {
      assert ms[..0] == [];
      assert |ms| > 0 ==> ms[1..][..0] == [];
      hide Decode, Frame;
      CutBeforeFirst(ms, cut);
    } else {
      PrefixSteps(ms, k, cut);
    }
  }

  lemma {:induction false} PrefixSteps(ms: seq<Bytes>, k: nat, cut: nat)
    requires 0 < k <= |ms| && cut <= |Frames(ms)|
    requires |Frames(ms[..k])| <= cut && (k < |ms| ==> cut < |Frames(ms[..k + 1])|)
    ensures Decode(Frames(ms)[..cut]) ==
            if cut == |Frames(ms[..k])| then Some(ms[..k]) else None
    decreases k, 0
  {
    var rest := ms[1..];
    var tail, c := Frames(rest), cut - |Frame(ms[0])|;
    FramesOfPrefix(ms, k);
    if k < |ms| {
      FramesOfPrefix(ms, k + 1);
    }
    assert Frames(ms) == Frame(ms[0]) + tail;
    hide Decode, Frame, Frames;
    PrefixDecodes(rest, k - 1, c);
    DecodeCut(ms[0], tail, c);
  }

  // However a file is cut, what decodes is the messages whose frames are whole, and nothing
  // decodes if a part of a frame follows them.
  lemma CutDecodes(ms: seq<Bytes>, cut: nat) returns (k: nat)
    requires cut <= |Frames(ms)|
    ensures k <= |ms| && |Frames(ms[..k])| <= cut && (k < |ms| ==> cut < |Frames(ms[..k + 1])|)
    ensures Decode(Frames(ms)[..cut]) == if cut == |Frames(ms[..k])| then Some(ms[..k]) else None
  {
    hide Decode;
    k := 0;
    while k < |ms| && |Frames(ms[..k + 1])| <= cut
      invariant k <= |ms| && |Frames(ms[..k])| <= cut
    {
      k := k + 1;
    }
    PrefixDecodes(ms, k, cut);
  }

  // What groups of seven bits are worth, least significant first.
  function GroupsWorth(s: Bytes): nat {
    if |s| == 0 then 0 else s[0] % 128 + 128 * GroupsWorth(s[1..])
  }

  // The header is the shortest base-128 varint of the number: every byte but the last has
  // its high bit set, and the groups are worth the number.
  lemma {:induction false} UvarintIsBase128(n: nat)
    ensures var s := Uvarint(n);
            && GroupsWorth(s) == n
            && (forall i :: 0 <= i < |s| - 1 ==> s[i] >= 128)
            && s[|s| - 1] < 128 && (|s| > 1 ==> s[|s| - 1] > 0)
  {
    if n >= 128 {
      UvarintIsBase128(n / 128);
    }
  }

  // A frame is such a header of the message's length, and the message.
  lemma FrameIsHeaderAndBody(m: Bytes)
    ensures var s, k := Frame(m), |Frame(m)| - |m|;
            && s[k..] == m && GroupsWorth(s[..k]) == |m|
            && (forall i :: 0 <= i < k - 1 ==> s[i] >= 128) && s[k - 1] < 128
  {
    UvarintIsBase128(|m|);
    assert Frame(m)[..|Uvarint(|m|)|] == Uvarint(|m|);
  }
}
