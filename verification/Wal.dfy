/** The write-ahead log, byte by byte. Encoding and checksum are parameters. */
module Wal {
  import opened Wrappers
  import opened Seqs
  import opened Protocol

  newtype byte = x: int | 0 <= x < 256

  type Bytes = seq<byte>

  datatype Entry = Entry(client: ClientID, op: Op)

  /** The payload encoding and the 32-bit checksum. */
  datatype Codec = Codec(encode: Entry -> Bytes, decode: Bytes -> Option<Entry>, crc: Bytes -> nat)

  const WORD: nat := 0x1_0000_0000
  const HEADER: nat := 8
  const MAX_PAYLOAD: nat := 0xF0_0000

  ghost predicate GoodCodec(c: Codec) {
    && (forall e :: c.decode(c.encode(e)) == Some(e))
    && (forall b :: c.crc(b) < WORD)
  }

  datatype Reason = TruncatedHeader | TooLong | TruncatedPayload | BadCrc | BadPayload

  datatype ReplayError = ReplayError(reason: Reason, offset: nat)

  // ----- big-endian words and frames -----

  function PutU32(n: nat): (r: Bytes)
    ensures |r| == 4
  {
    [(n / 0x100_0000 % 256) as byte, (n / 0x1_0000 % 256) as byte, (n / 0x100 % 256) as byte, (n % 256) as byte]
  }

  function GetU32(b: Bytes): nat
    requires |b| >= 4
  {
    b[0] as nat * 0x100_0000 + b[1] as nat * 0x1_0000 + b[2] as nat * 0x100 + b[3] as nat
  }

  lemma Digits(n: nat)
    ensures (n / 0x100_0000 % 256) * 0x100_0000 + (n / 0x1_0000 % 256) * 0x1_0000
            + (n / 0x100 % 256) * 0x100 + n % 256 == n % WORD
  {
    var a, b, c := n / 0x100, n / 0x1_0000, n / 0x100_0000;
    assert a / 0x100 == b && b / 0x100 == c;
    assert n == a * 0x100 + n % 256 && a == b * 0x100 + a % 256 && b == c * 0x100 + b % 256;
  }

  /** The length is cut to 32 bits on the way in. */
  lemma GetPut(n: nat, rest: Bytes)
    ensures GetU32(PutU32(n) + rest) == n % WORD
  {
    Digits(n);
    var b := PutU32(n);
    assert (b + rest)[0] == b[0] && (b + rest)[1] == b[1] && (b + rest)[2] == b[2] && (b + rest)[3] == b[3];
  }

  function Frame(c: Codec, payload: Bytes): (r: Bytes)
    ensures |r| == HEADER + |payload|
  {
    PutU32(|payload|) + PutU32(c.crc(payload)) + payload
  }

  /** `makeFrame`: fill the buffer. */
  method MakeFrame(c: Codec, payload: Bytes) returns (frame: array<byte>)
    ensures fresh(frame) && frame[..] == Frame(c, payload)
  {
    frame := new byte[HEADER + |payload|];
    var len, crc := PutU32(|payload|), PutU32(c.crc(payload));
    for i := 0 to 4
      invariant forall k :: 0 <= k < i ==> frame[k] == len[k] && frame[4 + k] == crc[k]
    {
      frame[i], frame[4 + i] := len[i], crc[i];
    }
    for i := 0 to |payload|
      invariant forall k :: 0 <= k < 4 ==> frame[k] == len[k] && frame[4 + k] == crc[k]
      invariant forall k :: 0 <= k < i ==> frame[HEADER + k] == payload[k]
    {
      frame[HEADER + i] := payload[i];
    }
  }

  function EntryFrame(c: Codec, e: Entry): Bytes { Frame(c, c.encode(e)) }

  /** The log that holds these entries and nothing else. */
  function Image(c: Codec, es: seq<Entry>): Bytes {
    if es == [] then [] else Image(c, es[..|es| - 1]) + EntryFrame(c, es[|es| - 1])
  }

  // ----- reading it back -----

  datatype Step = Done | Stop(reason: Reason) | Next(entry: Entry, size: nat)

  /** What the reader makes of the front of `data`. */
  function ReadFrame(c: Codec, data: Bytes): (s: Step)
    ensures s.Next? ==> 0 < s.size <= |data|
  {
    if data == [] then Done
    else if |data| < HEADER then Stop(TruncatedHeader)
    else
      var n := GetU32(data);
      if n > MAX_PAYLOAD then Stop(TooLong)
      else if |data| < HEADER + n then Stop(TruncatedPayload)
      else
        var payload := data[HEADER..HEADER + n];
        if c.crc(payload) != GetU32(data[4..]) then Stop(BadCrc)
        else match c.decode(payload)
          case None => Stop(BadPayload)
          case Some(e) => Next(e, HEADER + n)
  }

  function Replay(c: Codec, data: Bytes, at: nat): (seq<Entry>, Option<ReplayError>)
    decreases |data|
  {
    match ReadFrame(c, data)
    case Done => ([], None)
    case Stop(reason) => ([], Some(ReplayError(reason, at)))
    case Next(e, size) =>
      var rest := Replay(c, data[size..], at + size);
      ([e] + rest.0, rest.1)
  }

  predicate Fits(c: Codec, e: Entry) { |c.encode(e)| <= MAX_PAYLOAD }

  ghost predicate AllFit(c: Codec, es: seq<Entry>) { forall i :: 0 <= i < |es| ==> Fits(c, es[i]) }

  lemma FrameParts(c: Codec, payload: Bytes, rest: Bytes)
    requires GoodCodec(c)
    ensures var data := Frame(c, payload) + rest;
            && GetU32(data) == |payload| % WORD && GetU32(data[4..]) == c.crc(payload)
            && data[HEADER..HEADER + |payload|] == payload && data[HEADER + |payload|..] == rest
  {
    var data := Frame(c, payload) + rest;
    var len, crc := PutU32(|payload|), PutU32(c.crc(payload));
    assert data == len + (crc + payload + rest);
    assert data[4..] == crc + (payload + rest);
    GetPut(|payload|, crc + payload + rest);
    GetPut(c.crc(payload), payload + rest);
  }

  lemma EntryFrameSize(c: Codec, e: Entry)
    ensures |EntryFrame(c, e)| == HEADER + |c.encode(e)|
    ensures Fits(c, e) ==> |c.encode(e)| < WORD
  {
  }

  lemma ReadsFrame(c: Codec, e: Entry, rest: Bytes)
    requires GoodCodec(c) && |c.encode(e)| < WORD
    ensures ReadFrame(c, EntryFrame(c, e) + rest)
         == if Fits(c, e) then Next(e, |EntryFrame(c, e)|) else Stop(TooLong)
  {
    FrameParts(c, c.encode(e), rest);
    assert c.decode(c.encode(e)) == Some(e);
    hide Frame, GetU32, GoodCodec;
  }

  /** An entry that fits is read back, and reading goes on behind it. */
  lemma ReplayCons(c: Codec, e: Entry, rest: Bytes, at: nat)
    requires GoodCodec(c) && Fits(c, e)
    ensures var r := Replay(c, rest, at + |EntryFrame(c, e)|);
            && Replay(c, EntryFrame(c, e) + rest, at).0 == [e] + r.0
            && Replay(c, EntryFrame(c, e) + rest, at).1 == r.1
  {
    hide Fits, EntryFrame, GoodCodec, ReadFrame;
    EntryFrameSize(c, e);
    ReadsFrame(c, e, rest);
    assert (EntryFrame(c, e) + rest)[|EntryFrame(c, e)|..] == rest;
  }

  /** Intact entries are read back, and reading goes on behind them. */
  lemma {:induction false} ReplayImage(c: Codec, es: seq<Entry>, rest: Bytes, at: nat)
    requires GoodCodec(c) && AllFit(c, es)
    ensures var r := Replay(c, rest, at + |Image(c, es)|);
            && Replay(c, Image(c, es) + rest, at).0 == es + r.0
            && Replay(c, Image(c, es) + rest, at).1 == r.1
    decreases |es|
  {
    hide Replay, GoodCodec, EntryFrame, Fits;
    if es == [] {
      assert [] + rest == rest;
    } else {
      var front, last := es[..|es| - 1], es[|es| - 1];
      var f := EntryFrame(c, last);
      Assoc(Image(c, front), f, rest);
      ReplayImage(c, front, f + rest, at);
      ReplayCons(c, last, rest, at + |Image(c, front)|);
      Assoc(front, [last], Replay(c, rest, at + |Image(c, es)|).0);
      assert es == front + [last];
    }
  }

  /** What replay gives for these bytes: the entries, and why it stopped. */
  ghost predicate Yields(c: Codec, data: Bytes, es: seq<Entry>, error: Option<ReplayError>) {
    Replay(c, data, 0).0 == es && Replay(c, data, 0).1 == error
  }

  /** Intact entries in front of bytes that cannot be read. */
  lemma ImageThenStop(c: Codec, es: seq<Entry>, data: Bytes)
    requires GoodCodec(c) && AllFit(c, es) && ReadFrame(c, data).Stop?
    ensures Yields(c, Image(c, es) + data, es, Some(ReplayError(ReadFrame(c, data).reason, |Image(c, es)|)))
  {
    hide Replay, ReadFrame, Image, AllFit, GoodCodec;
    ReplayImage(c, es, data, 0);
    ReplayUnfold(c, data, |Image(c, es)|);
    assert es + [] == es;
  }

  /** The round trip. */
  lemma RoundTrip(c: Codec, es: seq<Entry>)
    requires GoodCodec(c) && AllFit(c, es)
    ensures Yields(c, Image(c, es), es, None)
  {
    hide Replay, Image, AllFit, GoodCodec;
    ReplayImage(c, es, [], 0);
    ReplayUnfold(c, [], |Image(c, es)|);
    assert Image(c, es) + [] == Image(c, es);
    assert es + [] == es;
  }

  lemma TornFrame(c: Codec, e: Entry, cut: nat)
    requires GoodCodec(c) && Fits(c, e) && 0 < cut < |EntryFrame(c, e)|
    ensures ReadFrame(c, EntryFrame(c, e)[..cut]) == Stop(if cut < HEADER then TruncatedHeader else TruncatedPayload)
  {
    var f, p := EntryFrame(c, e), c.encode(e);
    FrameParts(c, p, []);
    assert f + [] == f;
    hide EntryFrame, Frame, GetU32;
    if cut >= HEADER {
      assert f[..cut][..4] == f[..4];
      SameWord(f, f[..cut]);
    }
  }

  lemma SameWord(a: Bytes, b: Bytes)
    requires |a| >= 4 && |b| >= 4 && a[..4] == b[..4]
    ensures GetU32(a) == GetU32(b)
  {
    assert a[..4][0] == a[0] && a[..4][1] == a[1] && a[..4][2] == a[2] && a[..4][3] == a[3];
    assert b[..4][0] == b[0] && b[..4][1] == b[1] && b[..4][2] == b[2] && b[..4][3] == b[3];
  }

  /** One entry comes back exactly if its payload is at most 15 MiB. */
  lemma ReplayCapIs(c: Codec, e: Entry)
    requires GoodCodec(c) && |c.encode(e)| < WORD
    ensures Yields(c, Image(c, [e]), [e], None) <==> |c.encode(e)| <= 15 * 1024 * 1024
  {
    var es := [e];
    hide Yields, Image, GoodCodec;
    RoundTripIff(c, es);
    assert AllFit(c, es) <==> Fits(c, es[0]);
  }

  /** Replay stops for good, with that reason, at an intact frame whose payload does not decode. */
  lemma UndecodableStops(c: Codec, es: seq<Entry>, payload: Bytes, rest: Bytes)
    requires GoodCodec(c) && AllFit(c, es) && |payload| <= MAX_PAYLOAD && c.decode(payload) == None
    ensures Yields(c, Image(c, es) + (Frame(c, payload) + rest), es, Some(ReplayError(BadPayload, |Image(c, es)|)))
  {
    hide Yields, Image, AllFit, Frame, GetU32, ReadFrame;
    ReadsUndecodable(c, payload, rest);
    ImageThenStop(c, es, Frame(c, payload) + rest);
  }

  lemma ReadsUndecodable(c: Codec, payload: Bytes, rest: Bytes)
    requires GoodCodec(c) && |payload| <= MAX_PAYLOAD && c.decode(payload) == None
    ensures ReadFrame(c, Frame(c, payload) + rest) == Stop(BadPayload)
  {
    FrameParts(c, payload, rest);
    hide Frame, GetU32, GoodCodec;
  }

  /** Whatever strict prefix of one more frame follows, the complete entries all come back, and the
      reader stops with an error where the torn frame begins. */
  lemma TornTail(c: Codec, es: seq<Entry>, e: Entry, cut: nat)
    requires GoodCodec(c) && AllFit(c, es) && Fits(c, e)
    requires 0 < cut < |EntryFrame(c, e)|
    ensures var reason := if cut < HEADER then TruncatedHeader else TruncatedPayload;
            Yields(c, Image(c, es) + EntryFrame(c, e)[..cut], es, Some(ReplayError(reason, |Image(c, es)|)))
  {
    hide Yields, ReadFrame;
    TornFrame(c, e, cut);
    ImageThenStop(c, es, EntryFrame(c, e)[..cut]);
  }

  /** Reading stops for good at an entry above the cap, whatever was appended behind it. */
  lemma OversizeHides(c: Codec, es: seq<Entry>, e: Entry, rest: Bytes)
    requires GoodCodec(c) && AllFit(c, es) && MAX_PAYLOAD < |c.encode(e)| < WORD
    ensures Yields(c, Image(c, es) + (EntryFrame(c, e) + rest), es, Some(ReplayError(TooLong, |Image(c, es)|)))
  {
    hide Yields, ReadFrame;
    ReadsFrame(c, e, rest);
    ImageThenStop(c, es, EntryFrame(c, e) + rest);
  }

  lemma {:induction false} ImageConcat(c: Codec, a: seq<Entry>, b: seq<Entry>)
    ensures Image(c, a + b) == Image(c, a) + Image(c, b)
  {
    if b == [] {
      assert a + b == a;
    } else {
      var front, last := b[..|b| - 1], b[|b| - 1];
      assert (a + b)[..|a + b| - 1] == a + front;
      ImageConcat(c, a, front);
      Assoc(Image(c, a), Image(c, front), EntryFrame(c, last));
    }
  }

  lemma ImageOne(c: Codec, e: Entry)
    ensures Image(c, [e]) == EntryFrame(c, e)
  {
    assert [e][..0] == [];
  }

  /** The log gives everything back exactly when every payload is within the cap. */
  lemma RoundTripIff(c: Codec, es: seq<Entry>)
    requires GoodCodec(c) && forall i :: 0 <= i < |es| ==> |c.encode(es[i])| < WORD
    ensures Yields(c, Image(c, es), es, None) <==> AllFit(c, es)
  {
    if AllFit(c, es) {
      RoundTrip(c, es);
    } else {
      var k := FirstOversize(c, es);
      var front, e, rest := es[..k], es[k], Image(c, es[k + 1..]);
      assert es == front + ([e] + es[k + 1..]);
      ImageConcat(c, front, [e] + es[k + 1..]);
      ImageConcat(c, [e], es[k + 1..]);
      ImageOne(c, e);
      Assoc(Image(c, front), EntryFrame(c, e), rest);
      OversizeHides(c, front, e, rest);
      hide Replay, Image;
    }
  }

  lemma FirstOversize(c: Codec, es: seq<Entry>) returns (k: nat)
    requires !AllFit(c, es)
    ensures k < |es| && !Fits(c, es[k]) && AllFit(c, es[..k])
  {
    var i :| 0 <= i < |es| && !Fits(c, es[i]);
    if AllFit(c, es[..i]) {
      k := i;
    } else {
      k := FirstOversize(c, es[..i]);
      assert es[..i][..k] == es[..k];
    }
  }

  /** The spliced header's length cannot be used, or the checksum does not agree. */
  ghost predicate HeaderFails(c: Codec, data: Bytes) {
    |data| < HEADER ||
    var n := GetU32(data);
    n > MAX_PAYLOAD || |data| < HEADER + n || c.crc(data[HEADER..HEADER + n]) != GetU32(data[4..])
  }

  /** Behind intact entries and a torn frame, what was appended later stays unread exactly when the
      spliced bytes do not happen to read as a frame. */
  lemma TornThenMoreIff(c: Codec, es: seq<Entry>, torn: Bytes, more: Bytes)
    requires GoodCodec(c) && AllFit(c, es)
    ensures Replay(c, Image(c, es) + (torn + more), 0).0 == es <==> !ReadFrame(c, torn + more).Next?
  {
    hide Replay, Image, AllFit, GoodCodec, ReadFrame;
    ReplayImage(c, es, torn + more, 0);
    ReplayUnfold(c, torn + more, |Image(c, es)|);
    var r := Replay(c, torn + more, |Image(c, es)|).0;
    assert |es + r| == |es| + |r| && (r == [] ==> es + r == es);
  }

  /** Behind a torn header the appended bytes complete that header. Unless its length then fits what
      follows and the checksum agrees, nothing appended comes back. */
  lemma TornHeaderSwallows(c: Codec, es: seq<Entry>, e: Entry, cut: nat, more: Bytes)
    requires GoodCodec(c) && AllFit(c, es) && 0 < cut < HEADER
    requires HeaderFails(c, EntryFrame(c, e)[..cut] + more)
    ensures exists reason ::
      Yields(c, Image(c, es) + (EntryFrame(c, e)[..cut] + more), es, Some(ReplayError(reason, |Image(c, es)|)))
  {
    var data := EntryFrame(c, e)[..cut] + more;
    FailsToRead(c, data);
    hide Yields, ReadFrame, HeaderFails;
    ImageThenStop(c, es, data);
  }

  lemma FailsToRead(c: Codec, data: Bytes)
    requires data != [] && HeaderFails(c, data)
    ensures ReadFrame(c, data).Stop?
  {
  }

  /** An entry appended behind a torn payload completes the torn frame: unless the checksum happens
      to agree, it never comes back, and neither does anything behind it. */
  lemma TornTailSwallows(c: Codec, es: seq<Entry>, e: Entry, cut: nat, more: Bytes)
    requires GoodCodec(c) && AllFit(c, es) && Fits(c, e)
    requires HEADER <= cut < |EntryFrame(c, e)| <= cut + |more|
    requires var p := c.encode(e); c.crc(p[..cut - HEADER] + more[..|p| - (cut - HEADER)]) != c.crc(p)
    ensures Yields(c, Image(c, es) + (EntryFrame(c, e)[..cut] + more), es, Some(ReplayError(BadCrc, |Image(c, es)|)))
  {
    hide Yields, ReadFrame;
    SplicedFrame(c, e, cut, more);
    ImageThenStop(c, es, EntryFrame(c, e)[..cut] + more);
  }

  lemma SplicedFrame(c: Codec, e: Entry, cut: nat, more: Bytes)
    requires GoodCodec(c) && Fits(c, e)
    requires HEADER <= cut < |EntryFrame(c, e)| <= cut + |more|
    requires var p := c.encode(e); c.crc(p[..cut - HEADER] + more[..|p| - (cut - HEADER)]) != c.crc(p)
    ensures ReadFrame(c, EntryFrame(c, e)[..cut] + more) == Stop(BadCrc)
  {
    var f, p := EntryFrame(c, e), c.encode(e);
    var data := f[..cut] + more;
    FrameParts(c, p, []);
    assert f + [] == f;
    hide EntryFrame, GetU32, Frame, ReadFrame;
    SplicedBytes(f, p, cut, more);
    ReadsBadCrc(c, data, |p|);
  }

  lemma ReadsBadCrc(c: Codec, data: Bytes, n: nat)
    requires n <= MAX_PAYLOAD && |data| >= HEADER + n && GetU32(data) == n
    requires GetU32(data[4..]) != c.crc(data[HEADER..HEADER + n])
    ensures ReadFrame(c, data) == Stop(BadCrc)
  {
  }

  lemma SplicedBytes(f: Bytes, p: Bytes, cut: nat, more: Bytes)
    requires HEADER <= cut < |f| <= cut + |more| && |f| == HEADER + |p| && f[HEADER..] == p
    ensures var data := f[..cut] + more;
            && GetU32(data) == GetU32(f) && GetU32(data[4..]) == GetU32(f[4..])
            && data[HEADER..HEADER + |p|] == p[..cut - HEADER] + more[..|p| - (cut - HEADER)]
  {
    hide GetU32;
    var data := f[..cut] + more;
    assert data[..4] == f[..4] && data[4..][..4] == f[4..][..4];
    SameWord(data, f);
    SameWord(data[4..], f[4..]);
    assert f[HEADER..cut] == p[..cut - HEADER];
  }

  // ----- runs -----

  function Without(es: seq<Entry>, client: ClientID): (r: seq<Entry>) {
    if es == [] then []
    else
      var front := Without(es[..|es| - 1], client);
      if es[|es| - 1].client != client then front + [es[|es| - 1]] else front
  }

  lemma WithoutFits(c: Codec, es: seq<Entry>, client: ClientID)
    requires AllFit(c, es)
    ensures AllFit(c, Without(es, client))
  {
    if es != [] { WithoutFits(c, es[..|es| - 1], client); }
  }

  datatype Event = Appended(entry: Entry) | Truncated(client: ClientID)

  /** The entries that survive a run, by definition. */
  function Surviving(run: seq<Event>): seq<Entry> {
    if run == [] then []
    else
      var before := Surviving(run[..|run| - 1]);
      match run[|run| - 1]
      case Appended(e) => before + [e]
      case Truncated(client) => Without(before, client)
  }

  /** What TruncateClient leaves in the file. */
  function Compacted(c: Codec, data: Bytes, client: ClientID): Bytes {
    Image(c, Without(Replay(c, data, 0).0, client))
  }

  /** The bytes a run leaves in the file. */
  function BytesOf(c: Codec, run: seq<Event>): Bytes {
    if run == [] then []
    else
      var before := BytesOf(c, run[..|run| - 1]);
      match run[|run| - 1]
      case Appended(e) => before + EntryFrame(c, e)
      case Truncated(client) => Compacted(c, before, client)
  }

  /** After any run of appends and truncations the file holds exactly the surviving entries. */
  lemma {:induction false} RunRoundTrip(c: Codec, run: seq<Event>)
    requires GoodCodec(c)
    requires forall i :: 0 <= i < |run| && run[i].Appended? ==> Fits(c, run[i].entry)
    ensures AllFit(c, Surviving(run))
    ensures BytesOf(c, run) == Image(c, Surviving(run))
    ensures Yields(c, BytesOf(c, run), Surviving(run), None)
  {
    if run != [] {
      var before := run[..|run| - 1];
      RunRoundTrip(c, before);
      match run[|run| - 1] {
        case Appended(e) =>
          assert (Surviving(before) + [e])[..|Surviving(before)|] == Surviving(before);
        case Truncated(client) => WithoutFits(c, Surviving(before), client);
      }
    }
    RoundTrip(c, Surviving(run));
  }

  /** Truncation repairs a torn log: what it writes is read back whole. */
  lemma CompactedIsClean(c: Codec, es: seq<Entry>, e: Entry, cut: nat, client: ClientID)
    requires GoodCodec(c) && AllFit(c, es) && Fits(c, e) && 0 < cut < |EntryFrame(c, e)|
    ensures Yields(c, Compacted(c, Image(c, es) + EntryFrame(c, e)[..cut], client), Without(es, client), None)
  {
    TornTail(c, es, e, cut);
    WithoutFits(c, es, client);
    RoundTrip(c, Without(es, client));
  }

  /** Without loses nothing but the client's own entries, and keeps the order. */
  lemma {:induction false} WithoutOps(es: seq<Entry>, client: ClientID, other: ClientID)
    ensures OpsOf(Without(es, client), other) == if other == client then [] else OpsOf(es, other)
  {
    if es != [] {
      var front, last := es[..|es| - 1], es[|es| - 1];
      WithoutOps(front, client, other);
      var w := Without(front, client);
      assert (w + [last])[..|w|] == w;
    }
  }

  /** One client's logged ops, in order. */
  function OpsOf(es: seq<Entry>, client: ClientID): seq<Op> {
    if es == [] then []
    else
      var front := OpsOf(es[..|es| - 1], client);
      if es[|es| - 1].client == client then front + [es[|es| - 1].op] else front
  }

  class WAL {
    const codec: Codec
    var file: Bytes

    constructor (codec: Codec)
      ensures this.codec == codec && file == []
    {
      this.codec, file := codec, [];
    }

    method Append(client: ClientID, op: Op)
      modifies this`file
      ensures file == old(file) + EntryFrame(codec, Entry(client, op))
    {
      var frame := MakeFrame(codec, codec.encode(Entry(client, op)));
      file := file + frame[..];
    }

    /** `replayFrom`: everything intact from the start, and why it stopped. */
    method ReplayAll() returns (entries: seq<Entry>, error: Option<ReplayError>)
      ensures Yields(codec, file, entries, error)
    {
      hide Replay, ReadFrame;
      entries := [];
      var pos := 0;
      assert file[0..] == file;
      while true
        invariant 0 <= pos <= |file|
        invariant Replay(codec, file, 0).0 == entries + Replay(codec, file[pos..], pos).0
        invariant Replay(codec, file, 0).1 == Replay(codec, file[pos..], pos).1
        decreases |file| - pos
      {
        ReplayUnfold(codec, file[pos..], pos);
        match ReadFrame(codec, file[pos..]) {
          case Done => return entries, None;
          case Stop(reason) => return entries, Some(ReplayError(reason, pos));
          case Next(entry, size) =>
            ReplayNext(codec, file, pos, entries);
            entries := entries + [entry];
            pos := pos + size;
        }
      }
    }

    method TruncateClient(client: ClientID)
      modifies this`file
      ensures file == Compacted(codec, old(file), client)
    {
      var entries, _ := ReplayAll();
      var kept: seq<Entry> := [];
      for i := 0 to |entries|
        invariant kept == Without(entries[..i], client)
      {
        assert entries[..i + 1][..i] == entries[..i];
        if entries[i].client != client {
          kept := kept + [entries[i]];
        }
      }
      assert entries[..|entries|] == entries;
      var compact: Bytes := [];
      for i := 0 to |kept|
        invariant compact == Image(codec, kept[..i])
      {
        assert kept[..i + 1][..i] == kept[..i];
        var frame := MakeFrame(codec, codec.encode(kept[i]));
        compact := compact + frame[..];
      }
      assert kept[..|kept|] == kept;
      file := compact;
    }
  }

  lemma ReplayUnfold(c: Codec, data: Bytes, at: nat)
    ensures ReadFrame(c, data).Done? ==> Replay(c, data, at) == ([], None)
    ensures ReadFrame(c, data).Stop? ==> Replay(c, data, at) == ([], Some(ReplayError(ReadFrame(c, data).reason, at)))
    ensures ReadFrame(c, data).Next? ==> Replay(c, data, at).0 != []
  {
  }

  lemma ReplayNext(c: Codec, file: Bytes, pos: nat, done: seq<Entry>)
    requires pos <= |file| && ReadFrame(c, file[pos..]).Next?
    ensures var step := ReadFrame(c, file[pos..]);
            var rest := if pos + step.size <= |file|
              then Replay(c, file[pos + step.size..], pos + step.size) else ([], None);
            && pos + step.size <= |file|
            && done + Replay(c, file[pos..], pos).0 == done + [step.entry] + rest.0
            && Replay(c, file[pos..], pos).1 == rest.1
  {
    var step := ReadFrame(c, file[pos..]);
    assert file[pos..][step.size..] == file[pos + step.size..];
    Assoc(done, [step.entry], Replay(c, file[pos + step.size..], pos + step.size).0);
  }

  /** `r` is what is left of `es`: the entries of the other clients, as they are and in one order. */
  ghost predicate IsLeft(es: seq<Entry>, client: ClientID, r: seq<Entry>, from: seq<nat>) {
    && |from| == |r| && (forall k, l :: 0 <= k < l < |from| ==> from[k] < from[l])
    && (forall k :: 0 <= k < |from| ==> from[k] < |es| && r[k] == es[from[k]])
    && (forall i :: 0 <= i < |es| ==> (i in from <==> es[i].client != client))
  }

  lemma LeftSnoc(es: seq<Entry>, client: ClientID, r: seq<Entry>, from: seq<nat>, e: Entry)
    requires IsLeft(es, client, r, from)
    ensures e.client == client ==> IsLeft(es + [e], client, r, from)
    ensures e.client != client ==> IsLeft(es + [e], client, r + [e], from + [|es|])
  {
    assert |es| !in from;
  }

  /** Truncation takes out exactly the client's entries. */
  lemma {:induction false} WithoutIs(es: seq<Entry>, client: ClientID) returns (from: seq<nat>)
    ensures IsLeft(es, client, Without(es, client), from)
  {
    if es == [] {
      from := [];
    } else {
      var front, e := es[..|es| - 1], es[|es| - 1];
      from := WithoutIs(front, client);
      LeftSnoc(front, client, Without(front, client), from, e);
      assert es == front + [e];
      hide IsLeft;
      if e.client != client { from := from + [|front|]; }
    }
  }
}
