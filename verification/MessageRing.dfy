/**
 The byte ring of a message buffer (messagebuf.c: knl_msg_to_mbf, knl_mbf_to_msg;
 messagebuf.h): every message is stored behind a four-byte header that holds its
 length, rounded up to whole headers, and may wrap at the end of the buffer.
 */
module MessageRing {
  type Byte = b: int | 0 <= b < 256 witness 0
  type Msg = seq<Byte>

  const HEADERSZ := 4

  /** ROUNDSZ. */
  function Padded(n: int): int
    requires 0 <= n
  {
    (n + 3) / 4 * 4
  }

  /** What a message takes in the buffer. */
  function Room(m: Msg): int {
    HEADERSZ + Padded(|m|)
  }

  function Used(ms: seq<Msg>): int {
    if ms == [] then 0 else Room(ms[0]) + Used(ms[1..])
  }

  /** A length as the bytes of a HEADER, least significant first. */
  function Header(n: int): (h: seq<Byte>)
    requires 0 <= n < 0x1_0000_0000
    ensures |h| == HEADERSZ
  {
    [n % 256, n / 256 % 256, n / 0x1_0000 % 256, n / 0x100_0000]
  }

  function Length(h: seq<Byte>): int
    requires |h| == HEADERSZ
  {
    var (a: int, b: int, c: int, d: int) := (h[0], h[1], h[2], h[3]);
    a + 256 * b + 0x1_0000 * c + 0x100_0000 * d
  }

  lemma HeaderLength(n: int)
    requires 0 <= n < 0x1_0000_0000
    ensures Length(Header(n)) == n
  {
    var a, b, c := n / 256, n / 0x1_0000, n / 0x100_0000;
    assert b == a / 256 && c == b / 256;
    assert n == 256 * a + n % 256 && a == 256 * b + a % 256 && b == 256 * c + b % 256;
  }

  /** Bytes that start with the stored form of `ms` and hold nothing else. */
  ghost predicate Encodes(bytes: seq<Byte>, ms: seq<Msg>)
    decreases |ms|
  {
    if ms == [] then bytes == []
    else
      && |bytes| >= Room(ms[0])
      && |ms[0]| < 0x1_0000_0000 && bytes[..HEADERSZ] == Header(|ms[0]|)
      && bytes[HEADERSZ..HEADERSZ + |ms[0]|] == ms[0]
      && Encodes(bytes[Room(ms[0])..], ms[1..])
  }

  /** What the bytes encode is unique: nothing is lost in the ring. */
  lemma {:induction false} EncodesUnique(bytes: seq<Byte>, ms: seq<Msg>, ns: seq<Msg>)
    requires Encodes(bytes, ms) && Encodes(bytes, ns)
    ensures ms == ns
    decreases |ms|
  {
    if ms != [] && ns != [] {
      HeaderLength(|ms[0]|);
      HeaderLength(|ns[0]|);
      assert ms[0] == ns[0];
      EncodesUnique(bytes[Room(ms[0])..], ms[1..], ns[1..]);
      assert ms == [ms[0]] + ms[1..] && ns == [ns[0]] + ns[1..];
    }
  }

  lemma {:induction false} EncodesUsed(bytes: seq<Byte>, ms: seq<Msg>)
    requires Encodes(bytes, ms)
    ensures |bytes| == Used(ms) && |bytes| % 4 == 0
    decreases |ms|
  {
    if ms != [] {
      EncodesUsed(bytes[Room(ms[0])..], ms[1..]);
      RoomFacts(ms[0]);
      Multiples(Room(ms[0]), Used(ms[1..]));
    }
  }

  /** A stored message goes behind the others; the padding may hold anything. */
  lemma {:induction false} EncodesSnoc(bytes: seq<Byte>, ms: seq<Msg>, m: Msg, tail: seq<Byte>)
    requires Encodes(bytes, ms) && |m| < 0x1_0000_0000 && |tail| == Room(m)
    requires tail[..HEADERSZ] == Header(|m|) && tail[HEADERSZ..HEADERSZ + |m|] == m
    ensures Encodes(bytes + tail, ms + [m])
    decreases |ms|
  {
    var all := bytes + tail;
    if ms == [] {
      assert all == tail && tail[Room(m)..] == [] && (ms + [m])[1..] == [];
    } else {
      var r := Room(ms[0]);
      EncodesSnoc(bytes[r..], ms[1..], m, tail);
      PaddedFacts(|ms[0]|);
      assert all[..HEADERSZ] == bytes[..HEADERSZ];
      assert all[HEADERSZ..HEADERSZ + |ms[0]|] == bytes[HEADERSZ..HEADERSZ + |ms[0]|];
      assert all[r..] == bytes[r..] + tail;
      assert (ms + [m])[0] == ms[0] && (ms + [m])[1..] == ms[1..] + [m];
    }
  }

  // ---------------------------------------------------------------- the ring

  /** The buffer read from `head` on, once round. */
  function Turned(buf: seq<Byte>, head: int): (r: seq<Byte>)
    requires 0 <= head <= |buf|
    ensures |r| == |buf|
  {
    buf[head..] + buf[..head]
  }

  /** Position `k` places behind `head` in a ring of `n`. */
  function Behind(head: int, k: int, n: int): int {
    if head + k >= n then head + k - n else head + k
  }

  /** knl_memcpy to position `p`. */
  function Copied(buf: seq<Byte>, p: int, src: seq<Byte>): (r: seq<Byte>)
    requires 0 <= p && p + |src| <= |buf|
    ensures |r| == |buf|
  {
    buf[..p] + src + buf[p + |src|..]
  }

  /** Copying to a stretch that does not wrap, seen from `head`. */
  lemma TurnedCopied(buf: seq<Byte>, head: int, k: int, src: seq<Byte>)
    requires 0 <= head < |buf| && 0 <= k && k + |src| <= |buf|
    requires Behind(head, k, |buf|) + |src| <= |buf| && k < |buf|
    ensures Turned(Copied(buf, Behind(head, k, |buf|), src), head) == Copied(Turned(buf, head), k, src)
  {
    var n, p := |buf|, Behind(head, k, |buf|);
    var a, b := Turned(Copied(buf, p, src), head), Copied(Turned(buf, head), k, src);
    forall i | 0 <= i < n ensures a[i] == b[i] {
      var j := if head + i >= n then head + i - n else head + i;
      assert a[i] == Copied(buf, p, src)[j];
      assert Turned(buf, head)[i] == buf[j];
    }
  }

  lemma CopiedTwice(r: seq<Byte>, k: int, a: seq<Byte>, b: seq<Byte>)
    requires 0 <= k && k + |a| + |b| <= |r|
    ensures Copied(Copied(r, k, a), k + |a|, b) == Copied(r, k, a + b)
  {
  }

  /** Moving the head `k` places on turns the ring. */
  lemma TurnedMoved(buf: seq<Byte>, head: int, k: int)
    requires 0 <= head < |buf| && 0 <= k <= |buf|
    ensures 0 <= Behind(head, k, |buf|) <= |buf|
    ensures Turned(buf, Behind(head, k, |buf|)) == Turned(buf, head)[k..] + Turned(buf, head)[..k]
  {
    var n, p := |buf|, Behind(head, k, |buf|);
    var a, b := Turned(buf, p), Turned(buf, head)[k..] + Turned(buf, head)[..k];
    forall i | 0 <= i < n ensures a[i] == b[i] { }
  }

  /** The message bytes from position `t1` on, in one piece or two. */
  function StoredData(buf: seq<Byte>, t1: int, m: Msg): (r: seq<Byte>)
    requires 0 <= t1 <= |buf| && |m| <= |buf|
    ensures |r| == |buf|
  {
    var rem := |buf| - t1;
    if rem < |m| then Copied(Copied(buf, t1, m[..rem]), 0, m[rem..]) else Copied(buf, t1, m)
  }

  /** What knl_msg_to_mbf does to the bytes, for a buffer used up to `tail`. */
  function Stored(buf: seq<Byte>, tail: int, m: Msg): (r: (seq<Byte>, int))
    requires 0 <= tail && tail + HEADERSZ <= |buf| && Room(m) <= |buf| && |m| < 0x1_0000_0000
    ensures |r.0| == |buf|
  {
    var n := |buf|;
    var t1 := if tail + HEADERSZ >= n then 0 else tail + HEADERSZ;
    var end := if n - t1 < |m| then Padded(|m| - (n - t1)) else t1 + Padded(|m|);
    (StoredData(Copied(buf, tail, Header(|m|)), t1, m), if end >= n then 0 else end)
  }

  lemma PaddedFacts(n: int)
    requires 0 <= n
    ensures n <= Padded(n) < n + 4 && Padded(n) % 4 == 0
  {
  }

  lemma RoomFacts(m: Msg)
    ensures Room(m) % 4 == 0 && HEADERSZ + |m| <= Room(m)
  {
    PaddedFacts(|m|);
  }

  /** Everything is aligned to headers, so a header never wraps. */
  lemma HeaderFits(head: int, used: int, n: int)
    requires 0 <= head < n && n % 4 == 0 && head % 4 == 0 && used % 4 == 0 && 0 <= used && used + HEADERSZ <= n
    ensures var t := Behind(head, used, n);
            && 0 <= t && t + HEADERSZ <= n && t % 4 == 0
            && Behind(head, used + HEADERSZ, n) == if t + HEADERSZ >= n then 0 else t + HEADERSZ
  {
  }

  /** The tail after a store of `sz` bytes whose data start at `t1`, `used` behind the head. */
  lemma TailAfter(head: int, used: int, n: int, sz: int)
    requires 0 <= head < n && n % 4 == 0 && head % 4 == 0 && used % 4 == 0 && 0 <= used && 0 < sz
             && used + Padded(sz) <= n
    ensures var t1 := Behind(head, used, n);
            && 0 <= t1 < n
            && (n - t1 < sz ==> Behind(head, used + Padded(sz), n) ==
                                  if Padded(sz - (n - t1)) >= n then 0 else Padded(sz - (n - t1)))
            && (n - t1 >= sz ==> Behind(head, used + Padded(sz), n) ==
                                   if t1 + Padded(sz) >= n then 0 else t1 + Padded(sz))
  {
    PaddedFacts(sz);
    var t1 := Behind(head, used, n);
    if n - t1 < sz {
      var k := (n - t1) / 4;
      assert n - t1 == 4 * k;
      assert (sz - 4 * k + 3) / 4 == (sz + 3) / 4 - k;
      assert Padded(sz - (n - t1)) == Padded(sz) - (n - t1);
    }
  }

  /** Message bytes copied in one or two pieces, seen from the head. */
  lemma DataBehind(buf: seq<Byte>, head: int, k: int, m: Msg)
    requires 0 <= head < |buf| && 0 <= k && 0 < |m| && k + |m| <= |buf|
    ensures var t1 := Behind(head, k, |buf|);
            0 <= t1 < |buf| && Turned(StoredData(buf, t1, m), head) == Copied(Turned(buf, head), k, m)
  {
    var rem := |buf| - Behind(head, k, |buf|);
    if rem < |m| {
      DataWraps(buf, head, k, m, rem);
    } else {
      TurnedCopied(buf, head, k, m);
    }
  }

  lemma DataWraps(buf: seq<Byte>, head: int, k: int, m: Msg, rem: int)
    requires 0 <= head < |buf| && 0 <= k && k + |m| <= |buf| && rem == |buf| - Behind(head, k, |buf|) && 0 < rem < |m|
    ensures Turned(Copied(Copied(buf, |buf| - rem, m[..rem]), 0, m[rem..]), head) == Copied(Turned(buf, head), k, m)
  {
    DataTwo(buf, head, k, m[..rem], m[rem..]);
    assert m[..rem] + m[rem..] == m;
  }

  lemma DataTwo(buf: seq<Byte>, head: int, k: int, a: seq<Byte>, b: seq<Byte>)
    requires 0 <= head < |buf| && 0 <= k && 0 < |a| && 0 < |b| && k + |a| + |b| <= |buf|
             && Behind(head, k, |buf|) + |a| == |buf|
    ensures Turned(Copied(Copied(buf, |buf| - |a|, a), 0, b), head) == Copied(Turned(buf, head), k, a + b)
  {
    TurnedCopied(buf, head, k, a);
    TurnedCopied(Copied(buf, |buf| - |a|, a), head, k + |a|, b);
    CopiedTwice(Turned(buf, head), k, a, b);
  }

  /** Seen from the head, a store writes header and message behind what is used. */
  lemma StoredBehind(buf: seq<Byte>, head: int, used: int, m: Msg)
    requires 0 <= head < |buf| && |buf| % 4 == 0 && head % 4 == 0 && used % 4 == 0 && 0 <= used
             && 0 < |m| < 0x1_0000_0000
    requires used + Room(m) <= |buf|
    ensures var t := Behind(head, used, |buf|);
            && 0 <= t && t + HEADERSZ <= |buf|
            && Turned(Stored(buf, t, m).0, head) == Copied(Turned(buf, head), used, Header(|m|) + m)
            && Stored(buf, t, m).1 == Behind(head, used + Room(m), |buf|)
  {
    var n := |buf|;
    PaddedFacts(|m|);
    HeaderFits(head, used, n);
    TailAfter(head, used + HEADERSZ, n, |m|);
    var t, h := Behind(head, used, n), Header(|m|);
    var b1 := Copied(buf, t, h);
    TurnedCopied(buf, head, used, h);
    DataBehind(b1, head, used + HEADERSZ, m);
    assert Stored(buf, t, m).0 == StoredData(b1, Behind(head, used + HEADERSZ, n), m);
    CopiedTwice(Turned(buf, head), used, h, m);
  }

  /** There is a header at `head`, and the length it holds fits the buffer. */
  predicate Loadable(buf: seq<Byte>, head: int) {
    0 <= head && head + HEADERSZ <= |buf| && HEADERSZ + Padded(Length(buf[head..head + HEADERSZ])) <= |buf|
  }

  /** What knl_mbf_to_msg reads: the message and the new head. */
  function Loaded(buf: seq<Byte>, head: int): (r: (Msg, int))
    requires Loadable(buf, head)
  {
    var n := |buf|;
    var sz := Length(buf[head..head + HEADERSZ]);
    var h1 := if head + HEADERSZ >= n then 0 else head + HEADERSZ;
    var rem := n - h1;
    if rem < sz then
      (buf[h1..] + buf[..sz - rem], if Padded(sz - rem) >= n then 0 else Padded(sz - rem))
    else
      (buf[h1..h1 + sz], if h1 + Padded(sz) >= n then 0 else h1 + Padded(sz))
  }

  /** A stretch of the ring that may wrap, read in one or two pieces. */
  lemma TurnedRead(buf: seq<Byte>, head: int, k: int, sz: int)
    requires 0 <= head < |buf| && 0 <= k < |buf| && 0 <= sz && k + sz <= |buf|
    ensures var h1 := Behind(head, k, |buf|);
            && 0 <= h1 < |buf|
            && Turned(buf, head)[k..k + sz] ==
                 if |buf| - h1 < sz then buf[h1..] + buf[..sz - (|buf| - h1)] else buf[h1..h1 + sz]
  {
    var h1 := Behind(head, k, |buf|);
    TurnedMoved(buf, head, k);
    var t := Turned(buf, h1);
    assert Turned(buf, head)[k..k + sz] == t[..sz];
    if |buf| - h1 < sz {
      assert t[..sz] == buf[h1..] + buf[..sz - (|buf| - h1)];
    } else {
      assert t[..sz] == buf[h1..h1 + sz];
    }
  }

  /** Seen from the head, a load reads the bytes behind the first header. */
  lemma LoadedFront(buf: seq<Byte>, head: int, sz: int)
    requires 0 <= head < |buf| && |buf| % 4 == 0 && head % 4 == 0
    requires 0 < sz && HEADERSZ + Padded(sz) <= |buf| && Length(Turned(buf, head)[..HEADERSZ]) == sz
    ensures head + HEADERSZ <= |buf| && buf[head..head + HEADERSZ] == Turned(buf, head)[..HEADERSZ]
    ensures Loaded(buf, head) == (Turned(buf, head)[HEADERSZ..HEADERSZ + sz],
                                  Behind(head, HEADERSZ + Padded(sz), |buf|))
  {
    assert buf[head..head + HEADERSZ] == Turned(buf, head)[..HEADERSZ];
    PaddedFacts(sz);
    HeaderFits(head, 0, |buf|);
    TailAfter(head, HEADERSZ, |buf|, sz);
    TurnedRead(buf, head, HEADERSZ, sz);
  }

  // ------------------------------------------------------- the ring as a FIFO

  /** The control fields and the bytes represent the messages `ms`, oldest first.  (An
      equation, so that the verifier hands it on as one fact.) */
  ghost predicate RingOk(buf: seq<Byte>, head: int, tail: int, fr: int, ms: seq<Msg>) {
    var n := |buf|;
    true == (
      && n % 4 == 0 && n < 0x8000_0000 && 0 <= fr <= n && 0 <= head && head % 4 == 0
      && (if n == 0 then head == 0 else head < n)
      && tail == Behind(head, n - fr, n)
      && Encodes(Turned(buf, head)[..n - fr], ms)
      && forall m :: m in ms ==> 0 < |m|
    )
  }

  /** Free space is what the stored messages leave; it is never negative. */
  lemma Accounts(buf: seq<Byte>, head: int, tail: int, fr: int, ms: seq<Msg>)
    requires RingOk(buf, head, tail, fr, ms)
    ensures fr == |buf| - Used(ms) >= 0 && fr % 4 == 0
    ensures ms == [] <==> fr == |buf|
  {
    EncodesUsed(Turned(buf, head)[..|buf| - fr], ms);
    Multiples(|buf|, |buf| - fr);
  }

  /** A message admitted by knl_mbf_free, which tests its unrounded size, fits when rounded. */
  lemma AdmissionSuffices(fr: int, sz: int)
    requires fr % 4 == 0 && 0 <= sz
    ensures HEADERSZ + sz <= fr <==> HEADERSZ + Padded(sz) <= fr
  {
    PaddedFacts(sz);
  }

  /** Header and message copied to position `k`, and what is behind it up to `k + room`. */
  lemma CopiedParts(r: seq<Byte>, k: int, h: seq<Byte>, m: Msg, room: int)
    requires 0 <= k && |h| + |m| <= room && k + room <= |r|
    ensures var r' := Copied(r, k, h + m);
            && r'[..k + room] == r[..k] + r'[k..k + room]
            && r'[k..k + room][..|h|] == h && r'[k..k + room][|h|..|h| + |m|] == m
  {
    var hm := h + m;
    var s := Copied(r, k, hm)[k..k + room];
    assert s[..|hm|] == hm;
    assert s[..|h|] == s[..|hm|][..|h|] && s[|h|..|hm|] == s[..|hm|][|h|..];
    assert hm[..|h|] == h && hm[|h|..] == m;
  }

  /** A store appends the message. */
  lemma StoreStep(buf: seq<Byte>, head: int, tail: int, fr: int, ms: seq<Msg>, m: Msg)
    requires RingOk(buf, head, tail, fr, ms) && 0 < |m| && HEADERSZ + |m| <= fr
    ensures 0 <= tail && tail + HEADERSZ <= |buf| && Room(m) <= fr
    ensures RingOk(Stored(buf, tail, m).0, head, Stored(buf, tail, m).1, fr - Room(m), ms + [m])
  {
    var used := |buf| - fr;
    Accounts(buf, head, tail, fr, ms);
    AdmissionSuffices(fr, |m|);
    PaddedFacts(|m|);
    Multiples(|buf|, fr);
    StoredBehind(buf, head, used, m);
    StoreRing(buf, Stored(buf, tail, m).0, head, used, ms, m);
    assert forall x :: x in ms + [m] ==> x in ms || x == m;
  }

  lemma StoreRing(buf: seq<Byte>, buf': seq<Byte>, head: int, used: int, ms: seq<Msg>, m: Msg)
    requires 0 <= head <= |buf| == |buf'| && 0 <= used && used + Room(m) <= |buf| && |m| < 0x1_0000_0000
    requires Encodes(Turned(buf, head)[..used], ms) && HEADERSZ + |m| <= Room(m)
    requires Turned(buf', head) == Copied(Turned(buf, head), used, Header(|m|) + m)
    ensures Encodes(Turned(buf', head)[..used + Room(m)], ms + [m])
  {
    var r, r' := Turned(buf, head), Turned(buf', head);
    CopiedParts(r, used, Header(|m|), m, Room(m));
    EncodesSnoc(r[..used], ms, m, r'[used..used + Room(m)]);
  }

  /** A load takes the oldest message. */
  lemma LoadStep(buf: seq<Byte>, head: int, tail: int, fr: int, ms: seq<Msg>)
    requires RingOk(buf, head, tail, fr, ms) && ms != []
    ensures Loadable(buf, head) && Loaded(buf, head).0 == ms[0]
    ensures RingOk(buf, Loaded(buf, head).1, tail, fr + Room(ms[0]), ms[1..])
  {
    var n, used, m := |buf|, |buf| - fr, ms[0];
    FirstRead(Turned(buf, head), used, ms);
    assert m in ms;
    PaddedFacts(|m|);
    LoadedFront(buf, head, |m|);
    LoadRing(buf, head, tail, fr, ms);
  }

  lemma LoadRing(buf: seq<Byte>, head: int, tail: int, fr: int, ms: seq<Msg>)
    requires RingOk(buf, head, tail, fr, ms) && ms != [] && Room(ms[0]) <= |buf| - fr
    ensures RingOk(buf, Behind(head, Room(ms[0]), |buf|), tail, fr + Room(ms[0]), ms[1..])
  {
    var used, k := |buf| - fr, Room(ms[0]);
    RoomFacts(ms[0]);
    BehindTwice(head, k, used, |buf|);
    LoadRest(buf, head, used, k, ms);
    assert forall x :: x in ms[1..] ==> x in ms;
  }

  lemma FirstRead(r: seq<Byte>, used: int, ms: seq<Msg>)
    requires 0 <= used <= |r| && ms != [] && Encodes(r[..used], ms)
    ensures Room(ms[0]) <= used && HEADERSZ <= |r| && Length(r[..HEADERSZ]) == |ms[0]|
            && r[HEADERSZ..HEADERSZ + |ms[0]|] == ms[0]
  {
    PaddedFacts(|ms[0]|);
    HeaderLength(|ms[0]|);
    assert r[..HEADERSZ] == r[..used][..HEADERSZ];
    assert r[HEADERSZ..HEADERSZ + |ms[0]|] == r[..used][HEADERSZ..HEADERSZ + |ms[0]|];
  }

  lemma Multiples(a: int, b: int)
    requires a % 4 == 0 && b % 4 == 0
    ensures (a + b) % 4 == 0 && (a - b) % 4 == 0
  {
  }

  lemma BehindTwice(head: int, k: int, used: int, n: int)
    requires 0 <= head < n && n % 4 == 0 && head % 4 == 0 && k % 4 == 0 && 0 <= k <= used <= n
    ensures var h' := Behind(head, k, n); 0 <= h' < n && h' % 4 == 0 && Behind(h', used - k, n) == Behind(head, used, n)
  {
    Multiples(head, k);
    Multiples(head + k, n);
  }

  /** Dropping the first message's room from the encoded bytes leaves the others. */
  lemma LoadRest(buf: seq<Byte>, head: int, used: int, k: int, ms: seq<Msg>)
    requires 0 <= head < |buf| && 0 <= k <= used <= |buf| && 0 <= Behind(head, k, |buf|) < |buf|
    requires ms != [] && k == Room(ms[0]) && Encodes(Turned(buf, head)[..used], ms)
    ensures Encodes(Turned(buf, Behind(head, k, |buf|))[..used - k], ms[1..])
  {
    TurnedMoved(buf, head, k);
    assert Turned(buf, Behind(head, k, |buf|))[..used - k] == Turned(buf, head)[..used][k..];
  }

  /** The buffer fields of a message buffer's control block. */
  class ByteRing {
    const buffer: array<Byte>
    var head: int
    var tail: int
    var frbufsz: int

    ghost predicate Holds(ms: seq<Msg>)
      reads this, buffer
    {
      RingOk(buffer[..], head, tail, frbufsz, ms)
    }

    constructor (bufsz: int)
      requires 0 <= bufsz < 0x8000_0000 && bufsz % 4 == 0
      ensures Holds([]) && fresh(buffer) && buffer.Length == bufsz
    {
      buffer := new Byte[bufsz];
      head, tail, frbufsz := 0, 0, bufsz;
    }

    method Memcpy(p: int, src: seq<Byte>)
      requires 0 <= p && p + |src| <= buffer.Length
      modifies buffer
      ensures buffer[..] == Copied(old(buffer[..]), p, src)
    {
      for i := 0 to |src|
        invariant buffer[..] == Copied(old(buffer[..]), p, src[..i])
      {
        buffer[p + i] := src[i];
        assert src[..i + 1] == src[..i] + [src[i]];
      }
      assert src[..|src|] == src;
    }

    /** knl_mbf_free. */
    predicate Free(sz: int)
      reads this
    {
      HEADERSZ + sz <= frbufsz
    }

    /** knl_mbf_empty. */
    predicate Empty()
      reads this
    {
      frbufsz == buffer.Length
    }

    /** knl_msg_to_mbf. */
    method MsgToMbf(m: Msg, ghost ms: seq<Msg>)
      requires Holds(ms) && 0 < |m| && Free(|m|)
      modifies this, buffer
      ensures Holds(ms + [m]) && frbufsz == old(frbufsz) - Room(m)
    {
      StoreStep(buffer[..], head, tail, frbufsz, ms, m);
      frbufsz := frbufsz - Room(m);
      StoreBytes(m);
    }

    method StoreBytes(m: Msg)
      requires 0 <= tail && tail + HEADERSZ <= buffer.Length && Room(m) <= buffer.Length < 0x8000_0000
      modifies this`tail, buffer
      ensures (buffer[..], tail) == Stored(old(buffer[..]), old(tail), m)
    {
      PaddedFacts(|m|);
      var t := tail;
      Memcpy(t, Header(|m|));
      t := t + HEADERSZ;
      if t >= buffer.Length { t := 0; }
      var rem := buffer.Length - t;
      if rem < |m| {
        Memcpy(t, m[..rem]);
        Memcpy(0, m[rem..]);
        t := Padded(|m| - rem);
      } else {
        Memcpy(t, m);
        t := t + Padded(|m|);
      }
      if t >= buffer.Length { t := 0; }
      tail := t;
    }

    /** knl_mbf_to_msg. */
    method MbfToMsg(ghost ms: seq<Msg>) returns (m: Msg)
      requires Holds(ms) && ms != []
      modifies this`head, this`frbufsz
      ensures m == ms[0] && Holds(ms[1..]) && frbufsz == old(frbufsz) + Room(m)
    {
      LoadStep(buffer[..], head, tail, frbufsz, ms);
      m := LoadBytes();
      frbufsz := frbufsz + Room(m);
    }

    method LoadBytes() returns (m: Msg)
      requires Loadable(buffer[..], head)
      modifies this`head
      ensures (m, head) == Loaded(buffer[..], old(head))
    {
      assert buffer[..][head..head + HEADERSZ] == buffer[head..head + HEADERSZ];
      var sz := Length(buffer[head..head + HEADERSZ]);
      var h := head + HEADERSZ;
      if h >= buffer.Length { h := 0; }
      var rem := buffer.Length - h;
      if rem < sz {
        m := buffer[h..] + buffer[..sz - rem];
        assert buffer[..][h..] == buffer[h..] && buffer[..][..sz - rem] == buffer[..sz - rem];
        h := Padded(sz - rem);
      } else {
        m := buffer[h..h + sz];
        assert buffer[..][h..h + sz] == buffer[h..h + sz];
        h := h + Padded(sz);
      }
      if h >= buffer.Length { h := 0; }
      head := h;
    }
  }
}
