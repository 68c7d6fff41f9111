/**
 * One chat session on disk: an append-only history file holding one JSON
 * record per line, and a sibling metadata file with usage counters and
 * timestamps.
 */
module Sessions {
  import opened Wrappers
  import opened Gollm
  import opened FileSystem

  const MetadataFileName := "metadata.yaml"
  const HistoryFileName := "history.json"

  /** The history file lies directly in the session directory. */
  function HistoryPath(path: string): (r: string)
    ensures path != "" ==> r == path + "/" + HistoryFileName
  {
    JoinPath(path, HistoryFileName)
  }

  /** The metadata file lies directly in the session directory. */
  function MetadataPath(path: string): (r: string)
    ensures path != "" ==> r == path + "/" + MetadataFileName
  {
    JoinPath(path, MetadataFileName)
  }

  /** The two files of a session never coincide. */
  lemma SessionFilesDistinct(path: string)
    ensures HistoryPath(path) != MetadataPath(path)
  {
  }

  // ---------------------------------------------------------------------
  // 64-bit counters
  // ---------------------------------------------------------------------

  newtype int64 = x: int | -0x8000_0000_0000_0000 <= x < 0x8000_0000_0000_0000

  const TwoTo64: int := 0x1_0000_0000_0000_0000

  /** Go's `+=` on `int64`: two's-complement wrap-around. */
  function AddInt64(a: int64, b: int64): (r: int64)
    ensures (r as int - (a as int + b as int)) % TwoTo64 == 0
    ensures -0x8000_0000_0000_0000 <= a as int + b as int < 0x8000_0000_0000_0000 ==>
              r as int == a as int + b as int
  {
    var s := a as int + b as int;
    if s >= 0x8000_0000_0000_0000 then (s - TwoTo64) as int64
    else if s < -0x8000_0000_0000_0000 then (s + TwoTo64) as int64
    else s as int64
  }

  // ---------------------------------------------------------------------
  // Metadata
  // ---------------------------------------------------------------------

  /** `Metadata`; instants are opaque clock readings. `TotalCost` is left out. */
  datatype Metadata = Metadata(
    providerId: string,
    modelId: string,
    createdAt: int,
    lastAccessed: int,
    totalTokens: int64,
    messageCount: int64)

  /** The metadata file: missing, not decodable as YAML metadata, or holding
      a decoded record. */
  datatype MetaFile = NoMetaFile | CorruptMetaFile | StoredMeta(meta: Metadata)

  datatype StoreError =
    | NotExist        // the file does not exist
    | DecodeFailed    // the file does not decode
    | OpenFailed      // the file cannot be opened
    | MarshalFailed   // the value does not encode
    | WriteFailed     // a write to the file failed

  /** How the `os.WriteFile` of a metadata file went. Opening with `O_TRUNC`
      can fail and leave the file alone; once it is open the old contents are
      gone, so a failed write leaves whatever part of the new bytes reached
      the file, `left`, which may or may not decode. */
  datatype MetaWrite = MetaWritten | MetaOpenFailed | MetaWriteFailed(left: MetaFile)

  /** The metadata file after saving `m` over `prev`. */
  function SavedFile(prev: MetaFile, m: Metadata, w: MetaWrite): (r: MetaFile)
    ensures w.MetaWritten? ==> LoadOf(r) == Ok(m)
    ensures w.MetaOpenFailed? ==> r == prev
    ensures w.MetaWriteFailed? ==> r == w.left
  {
    match w
    case MetaWritten => StoredMeta(m)
    case MetaOpenFailed => prev
    case MetaWriteFailed(left) => left
  }

  /** The error `SaveMetadata` returns. Encoding a `Metadata` cannot fail. */
  function SaveError(w: MetaWrite): (r: Option<StoreError>)
    ensures r.None? <==> w.MetaWritten?
    ensures w.MetaOpenFailed? ==> r == Some(OpenFailed)
    ensures w.MetaWriteFailed? ==> r == Some(WriteFailed)
  {
    match w
    case MetaWritten => None
    case MetaOpenFailed => Some(OpenFailed)
    case MetaWriteFailed(_) => Some(WriteFailed)
  }

  /** `LoadMetadata`. */
  function LoadOf(f: MetaFile): (r: Result<Metadata, StoreError>)
    ensures r.Ok? <==> f.StoredMeta?
    ensures r.Ok? ==> r.value == f.meta
    ensures f.NoMetaFile? ==> r == Err(NotExist)
    ensures f.CorruptMetaFile? ==> r == Err(DecodeFailed)
  {
    match f
    case NoMetaFile => Err(NotExist)
    case CorruptMetaFile => Err(DecodeFailed)
    case StoredMeta(m) => Ok(m)
  }

  /** The counters after `UpdateUsage(tokens, _, count)` at instant `now`. */
  function WithUsage(m: Metadata, tokens: int64, count: int64, now: int): Metadata {
    m.(totalTokens := AddInt64(m.totalTokens, tokens),
       messageCount := AddInt64(m.messageCount, count),
       lastAccessed := now)
  }

  /** Without overflow, usage updates accumulate: two updates are one update
      by the sums, stamped with the later instant. */
  lemma {:induction false} UsageAccumulates(m: Metadata, t1: int64, c1: int64, t2: int64, c2: int64, now1: int, now2: int)
    requires -0x8000_0000_0000_0000 <= m.totalTokens as int + t1 as int + t2 as int < 0x8000_0000_0000_0000
    requires -0x8000_0000_0000_0000 <= m.messageCount as int + c1 as int + c2 as int < 0x8000_0000_0000_0000
    requires -0x8000_0000_0000_0000 <= m.totalTokens as int + t1 as int < 0x8000_0000_0000_0000
    requires -0x8000_0000_0000_0000 <= m.messageCount as int + c1 as int < 0x8000_0000_0000_0000
    requires -0x8000_0000_0000_0000 <= t1 as int + t2 as int < 0x8000_0000_0000_0000
    requires -0x8000_0000_0000_0000 <= c1 as int + c2 as int < 0x8000_0000_0000_0000
    ensures WithUsage(WithUsage(m, t1, c1, now1), t2, c2, now2) ==
            WithUsage(m, AddInt64(t1, t2), AddInt64(c1, c2), now2)
  {
    var once := WithUsage(m, t1, c1, now1);
    assert once.totalTokens as int == m.totalTokens as int + t1 as int;
    assert once.messageCount as int == m.messageCount as int + c1 as int;
    assert AddInt64(t1, t2) as int == t1 as int + t2 as int;
    assert AddInt64(c1, c2) as int == c1 as int + c2 as int;
  }

  /** An overflowing token count wraps to a negative total. */
  lemma TokenCountWraps(m: Metadata)
    requires m.totalTokens == 0x7FFF_FFFF_FFFF_FFFF
    ensures WithUsage(m, 1, 0, 0).totalTokens as int == -0x8000_0000_0000_0000
  {
  }

  // ---------------------------------------------------------------------
  // History records
  // ---------------------------------------------------------------------

  /** One value in the history file: an encoded message, a JSON `null`, a
      well-formed JSON value that does not decode as a message (a number, a
      string, an object with a field of the wrong type), or a value with a
      syntax error, such as a record torn by a failed write.
      `opensWithCloser` says whether that value's first non-blank byte is
      `}` or `]`; `terminated` says whether the newline that ends it was
      written. */
  datatype Record =
    | Encoded(msg: ChatMessage)
    | NullRecord
    | Mistyped
    | Malformed(opensWithCloser: bool, terminated: bool)

  /** Go's zero `ChatMessage`, which a `null` record decodes to. */
  const ZeroMessage := ChatMessage("", [], None)

  /** The message one record decodes to, if any. */
  function DecodeRecord(r: Record): Option<ChatMessage> {
    match r
    case Encoded(m) => Some(m)
    case NullRecord => Some(ZeroMessage)
    case _ => None
  }

  /** The messages a sequence of records holds: the decodable records, in
      file order. */
  function Decoded(rs: seq<Record>): (r: seq<ChatMessage>)
    ensures |r| <= |rs|
  {
    if |rs| == 0 then []
    else
      var d := DecodeRecord(rs[|rs| - 1]);
      Decoded(rs[..|rs| - 1]) + (if d.Some? then [d.value] else [])
  }

  lemma {:induction false} DecodedAppend(a: seq<Record>, b: seq<Record>)
    ensures Decoded(a + b) == Decoded(a) + Decoded(b)
    decreases |b|
  {
    if |b| == 0 {
      assert a + b == a;
    } else {
      var init := b[..|b| - 1];
      assert (a + b)[..|a + b| - 1] == a + init;
      assert (a + b)[|a + b| - 1] == b[|b| - 1];
      DecodedAppend(a, init);
    }
  }

  /** Reading back: a message appended to a history is the last message read,
      after the messages that were there; records that do not decode are
      skipped without disturbing the others. */
  lemma {:induction false} AppendThenRead(rs: seq<Record>, m: ChatMessage, junk: seq<Record>)
    requires forall k :: 0 <= k < |junk| ==> DecodeRecord(junk[k]).None?
    ensures Decoded(rs + junk + [Encoded(m)]) == Decoded(rs) + [m]
  {
    DecodedAppend(rs, junk);
    NothingDecodes(junk);
    assert (rs + junk + [Encoded(m)])[..|rs + junk|] == rs + junk;
  }

  lemma {:induction false} NothingDecodes(junk: seq<Record>)
    requires forall k :: 0 <= k < |junk| ==> DecodeRecord(junk[k]).None?
    ensures Decoded(junk) == []
  {
    if |junk| > 0 {
      NothingDecodes(junk[..|junk| - 1]);
    }
  }

  /** The records `SetChatMessages` writes for a run of messages. */
  function Records(ms: seq<ChatMessage>): (r: seq<Record>)
    ensures |r| == |ms|
    ensures forall k :: 0 <= k < |ms| ==> r[k] == Encoded(ms[k])
  {
    if |ms| == 0 then [] else Records(ms[..|ms| - 1]) + [Encoded(ms[|ms| - 1])]
  }

  /** Written messages read back as themselves. */
  lemma {:induction false} RecordsRoundTrip(ms: seq<ChatMessage>)
    ensures Decoded(Records(ms)) == ms
  {
    if |ms| > 0 {
      var init := ms[..|ms| - 1];
      RecordsRoundTrip(init);
      assert Records(ms)[..|ms| - 1] == Records(init);
      assert ms == init + [ms[|ms| - 1]];
    }
  }

  /** How the disk behaves during one operation: whether the file opens,
      which write, counted from 0, fails first (if any), and whether that
      failing write got part of its record into the file before failing. */
  datatype Disk = Disk(opens: bool, failingWrite: Option<nat>, torn: bool)

  predicate WriteSucceeds(d: Disk, k: nat) {
    d.failingWrite != Some(k)
  }

  /** What a failing write leaves in the file: nothing, or the torn prefix
      of its record, which is syntactically malformed and starts with `{`. */
  function Leftover(d: Disk): (r: seq<Record>)
    ensures |r| <= 1
    ensures r != [] <==> d.torn
    ensures r != [] ==> r[0] == Malformed(false, false)
  {
    if d.torn then [Malformed(false, false)] else []
  }

  /** The file ends in a malformed value whose newline was never written,
      such as the record a failing write tore. */
  predicate EndsTorn(rs: seq<Record>) {
    |rs| > 0 && rs[|rs| - 1].Malformed? && !rs[|rs| - 1].terminated
  }

  predicate Terminated(r: Record) {
    !(r.Malformed? && !r.terminated)
  }

  /** The records after the bytes of `r` are written at the end of the file
      holding `rs` (which is opened with `O_APPEND`): after a torn tail they
      run on into the torn value, which stays one malformed value, ended by
      the newline of `r` if it has one. */
  function Glued(rs: seq<Record>, r: Record): (res: seq<Record>)
    ensures !EndsTorn(rs) ==> res == rs + [r]
    ensures EndsTorn(rs) ==> |res| == |rs| && res[..|rs| - 1] == rs[..|rs| - 1] && res[|rs| - 1].Malformed?
    ensures EndsTorn(res) <==> !Terminated(r)
  {
    if EndsTorn(rs) then rs[..|rs| - 1] + [Malformed(rs[|rs| - 1].opensWithCloser, Terminated(r))]
    else rs + [r]
  }

  /** The records after `rs` are written one by one at the end of `base`. */
  function Joined(base: seq<Record>, rs: seq<Record>): seq<Record> {
    if |rs| == 0 then base else Glued(Joined(base, rs[..|rs| - 1]), rs[|rs| - 1])
  }

  /** Reading after an append: a message appended to the file is read last,
      after the messages that were there, unless the file ended in a torn
      record, which swallows it. */
  lemma AppendedThenRead(rs: seq<Record>, m: ChatMessage)
    ensures Decoded(Glued(rs, Encoded(m))) == Decoded(rs) + (if EndsTorn(rs) then [] else [m])
  {
    var res := Glued(rs, Encoded(m));
    if EndsTorn(rs) {
      var n := |rs| - 1;
      assert rs[..n] + [rs[n]] == rs;
      DecodedAppend(rs[..n], [rs[n]]);
      DecodedAppend(res[..n], [res[n]]);
      assert res[..n] + [res[n]] == res;
      assert Decoded([rs[n]]) == [] && Decoded([res[n]]) == [];
    } else {
      assert res[..|rs|] == rs;
    }
  }

  lemma JoinedSnoc(base: seq<Record>, es: seq<ChatMessage>)
    requires |es| > 0
    ensures Joined(base, Records(es)) == Glued(Joined(base, Records(es[..|es| - 1])), Encoded(es[|es| - 1]))
  {
    assert Records(es)[..|es| - 1] == Records(es[..|es| - 1]);
  }

  /** After at least one message is written the file no longer ends torn. */
  lemma JoinedTorn(base: seq<Record>, es: seq<ChatMessage>)
    ensures EndsTorn(Joined(base, Records(es))) <==> EndsTorn(base) && |es| == 0
  {
    if |es| == 0 {
      assert Records(es) == [];
    } else {
      JoinedSnoc(base, es);
    }
  }

  /** Reading after a run of appends of messages: they are read back in
      order after the existing messages, except that a torn tail swallows the
      first of them. */
  lemma {:induction false} JoinedRead(base: seq<Record>, es: seq<ChatMessage>)
    ensures Decoded(Joined(base, Records(es))) == Decoded(base) + (if EndsTorn(base) && |es| > 0 then es[1..] else es)
  {
    if |es| == 0 {
      assert Records(es) == [];
    } else {
      var init, m := es[..|es| - 1], es[|es| - 1];
      var prev, cur := Joined(base, Records(init)), Joined(base, Records(es));
      var torn := EndsTorn(base);
      assert Decoded(prev) == Decoded(base) + (if torn && |init| > 0 then init[1..] else init) by {
        JoinedRead(base, init);
      }
      assert EndsTorn(prev) == (torn && |init| == 0) by {
        JoinedTorn(base, init);
      }
      assert Decoded(cur) == Decoded(prev) + (if EndsTorn(prev) then [] else [m]) by {
        JoinedReadStep(base, es);
      }
      assert es == init + [m];
      SkipFirstSnoc(Decoded(base), Decoded(prev), Decoded(cur), init, m, torn, EndsTorn(prev));
    }
  }

  lemma JoinedReadStep(base: seq<Record>, es: seq<ChatMessage>)
    requires |es| > 0
    ensures var prev := Joined(base, Records(es[..|es| - 1]));
      Decoded(Joined(base, Records(es))) == Decoded(prev) + (if EndsTorn(prev) then [] else [es[|es| - 1]])
  {
    JoinedSnoc(base, es);
    AppendedThenRead(Joined(base, Records(es[..|es| - 1])), es[|es| - 1]);
  }

  lemma SkipFirstSnoc(d: seq<ChatMessage>, dPrev: seq<ChatMessage>, dCur: seq<ChatMessage>, init: seq<ChatMessage>, m: ChatMessage, torn: bool, prevTorn: bool)
    requires dPrev == d + (if torn && |init| > 0 then init[1..] else init)
    requires prevTorn == (torn && |init| == 0)
    requires dCur == dPrev + (if prevTorn then [] else [m])
    ensures dCur == d + (if torn then (init + [m])[1..] else init + [m])
  {
    if torn && |init| > 0 {
      assert (init + [m])[1..] == init[1..] + [m];
    } else if torn {
      assert (init + [m])[1..] == [];
    }
  }

  /** Three appends: a healthy one, one whose write tears its record, then a
      healthy one. The third message runs into the torn bytes and is never
      read back. */
  lemma TornAppendSwallowsNext(m1: ChatMessage, mx: ChatMessage, m2: ChatMessage)
    requires EncodableMessage(m1) && EncodableMessage(mx) && EncodableMessage(m2)
    ensures var healthy, tearing := Disk(true, None, false), Disk(true, Some(0), true);
      var h := AppendOutcome(AppendOutcome(AppendOutcome(Some([]), m1, healthy), mx, tearing), m2, healthy);
      h == Some([Encoded(m1), Malformed(false, true)]) && Decoded(h.value) == [m1]
  {
    var h1 := [Encoded(m1)];
    assert !EndsTorn([]) && [] + [Encoded(m1)] == h1;
    assert WriteSucceeds(Disk(true, None, false), 0);
    assert AppendOutcome(Some([]), m1, Disk(true, None, false)) == Some(h1);
    var h2 := [Encoded(m1), Malformed(false, false)];
    assert Joined(h1, [Malformed(false, false)]) == h2;
    assert AppendOutcome(Some(h1), mx, Disk(true, Some(0), true)) == Some(h2);
    assert EndsTorn(h2) && h2[..1] == h1 && Terminated(Encoded(m2));
    assert Glued(h2, Encoded(m2)) == [Encoded(m1), Malformed(false, true)];
    assert AppendOutcome(Some(h2), m2, Disk(true, None, false)) == Some([Encoded(m1), Malformed(false, true)]);
    AppendedThenRead(h2, m2);
    assert Decoded(h1) == [m1];
    DecodedAppend(h1, [Malformed(false, false)]);
    assert h1 + [Malformed(false, false)] == h2;
  }

  /** Without a torn tail, appended records simply follow the old ones. */
  lemma {:induction false} JoinedUntorn(base: seq<Record>, es: seq<ChatMessage>)
    requires !EndsTorn(base)
    ensures Joined(base, Records(es)) == base + Records(es)
  {
    if |es| == 0 {
      assert Records(es) == [] && base + [] == base;
    } else {
      var init, m := es[..|es| - 1], es[|es| - 1];
      JoinedUntorn(base, init);
      assert Records(es)[..|es| - 1] == Records(init);
      assert Records(es) == Records(init) + [Encoded(m)];
      if |init| > 0 {
        assert !EndsTorn(base + Records(init));
      }
      assert base + Records(init) + [Encoded(m)] == base + Records(es);
    }
  }

  /** The history after one `AddChatMessage(m)`: the file exists once it
      opens, and gets the bytes of the record when the message encodes and
      the write succeeds, or the torn part of them when a failing write tears
      it. */
  function AppendOutcome(h: Option<seq<Record>>, m: ChatMessage, disk: Disk): Option<seq<Record>> {
    if !disk.opens then h
    else
      var base := if h.Some? then h.value else [];
      if !EncodableMessage(m) then Some(base)
      else if WriteSucceeds(disk, 0) then Some(Glued(base, Encoded(m)))
      else Some(Joined(base, Leftover(disk)))
  }

  /** The history after appending `ms` one by one, the `j`-th append meeting
      the disk `disks(from + j)`. */
  function Persisted(h: Option<seq<Record>>, ms: seq<ChatMessage>, disks: nat -> Disk, from: nat): Option<seq<Record>> {
    if |ms| == 0 then h
    else AppendOutcome(Persisted(h, ms[..|ms| - 1], disks, from), ms[|ms| - 1], disks(from + |ms| - 1))
  }

  lemma PersistedSnoc(h: Option<seq<Record>>, ms: seq<ChatMessage>, m: ChatMessage, disks: nat -> Disk)
    ensures Persisted(h, ms + [m], disks, 0) == AppendOutcome(Persisted(h, ms, disks, 0), m, disks(|ms|))
  {
    assert (ms + [m])[..|ms|] == ms;
  }

  predicate DiskHealthy(d: Disk) {
    d.opens && d.failingWrite.None?
  }

  /** The messages of `ms` that encode, in order. */
  function Encodables(ms: seq<ChatMessage>): (r: seq<ChatMessage>)
    ensures |r| <= |ms|
    ensures forall k :: 0 <= k < |r| ==> EncodableMessage(r[k])
    ensures (forall k :: 0 <= k < |ms| ==> EncodableMessage(ms[k])) ==> r == ms
  {
    if |ms| == 0 then []
    else
      var init := ms[..|ms| - 1];
      assert forall k :: 0 <= k < |init| ==> init[k] == ms[k];
      assert ms == init + [ms[|ms| - 1]];
      Encodables(init) + (if EncodableMessage(ms[|ms| - 1]) then [ms[|ms| - 1]] else [])
  }

  lemma RecordsSnoc(ms: seq<ChatMessage>, m: ChatMessage)
    ensures Records(ms + [m]) == Records(ms) + [Encoded(m)]
  {
    assert (ms + [m])[..|ms|] == ms;
  }

  /** With a healthy disk, appended messages are written in order after the
      existing records; a message that does not encode is skipped. When the
      file does not end torn, each becomes a record of its own. */
  lemma PersistedInOrder(h: Option<seq<Record>>, ms: seq<ChatMessage>, disks: nat -> Disk, from: nat)
    requires forall k :: from <= k < from + |ms| ==> DiskHealthy(disks(k))
    ensures |ms| > 0 ==> Persisted(h, ms, disks, from) == Some(Joined(if h.Some? then h.value else [], Records(Encodables(ms))))
    ensures |ms| > 0 && !EndsTorn(if h.Some? then h.value else []) ==>
      Persisted(h, ms, disks, from) == Some((if h.Some? then h.value else []) + Records(Encodables(ms)))
    ensures |ms| > 0 && !EndsTorn(if h.Some? then h.value else []) && (forall k :: 0 <= k < |ms| ==> EncodableMessage(ms[k])) ==>
      Persisted(h, ms, disks, from) == Some((if h.Some? then h.value else []) + Records(ms))
  {
    PersistedJoined(h, ms, disks, from);
    var base := if h.Some? then h.value else [];
    if !EndsTorn(base) {
      JoinedUntorn(base, Encodables(ms));
    }
  }

  lemma {:induction false} PersistedJoined(h: Option<seq<Record>>, ms: seq<ChatMessage>, disks: nat -> Disk, from: nat)
    requires forall k :: from <= k < from + |ms| ==> DiskHealthy(disks(k))
    ensures |ms| > 0 ==> Persisted(h, ms, disks, from) == Some(Joined(if h.Some? then h.value else [], Records(Encodables(ms))))
  {
    if |ms| > 0 {
      var init, last := ms[..|ms| - 1], ms[|ms| - 1];
      var base := if h.Some? then h.value else [];
      var prev := Persisted(h, init, disks, from);
      if |init| == 0 {
        assert prev == h;
        assert Encodables(init) == [];
      } else {
        PersistedJoined(h, init, disks, from);
      }
      assert Persisted(h, ms, disks, from) == AppendOutcome(prev, last, disks(from + |ms| - 1));
      assert Encodables(ms) == Encodables(init) + (if EncodableMessage(last) then [last] else []);
      HealthyAppend(prev, base, Encodables(init), last, disks(from + |ms| - 1));
    }
  }

  /** One healthy append after the messages `done` were written to `base`:
      the message is written too when it encodes. */
  lemma HealthyAppend(prev: Option<seq<Record>>, base: seq<Record>, done: seq<ChatMessage>, m: ChatMessage, d: Disk)
    requires DiskHealthy(d)
    requires (if prev.Some? then prev.value else []) == Joined(base, Records(done))
    ensures AppendOutcome(prev, m, d) == Some(Joined(base, Records(done + (if EncodableMessage(m) then [m] else []))))
  {
    assert WriteSucceeds(d, 0);
    if EncodableMessage(m) {
      RecordsSnoc(done, m);
      var rs := Records(done + [m]);
      assert rs[..|rs| - 1] == Records(done);
      assert Joined(base, rs) == Glued(Joined(base, Records(done)), Encoded(m));
      assert done + (if EncodableMessage(m) then [m] else []) == done + [m];
    } else {
      assert done + [] == done;
    }
  }

  /** The number of messages `SetChatMessages` writes before it stops: at the
      first message that does not encode or whose write fails. */
  function WrittenCount(ms: seq<ChatMessage>, d: Disk, from: nat): (r: nat)
    requires from <= |ms|
    ensures from <= r <= |ms|
    ensures forall k :: from <= k < r ==> EncodableMessage(ms[k]) && WriteSucceeds(d, k)
    ensures r < |ms| ==> !EncodableMessage(ms[r]) || !WriteSucceeds(d, r)
    decreases |ms| - from
  {
    if from == |ms| then from
    else if !EncodableMessage(ms[from]) || !WriteSucceeds(d, from) then from
    else WrittenCount(ms, d, from + 1)
  }

  // ---------------------------------------------------------------------
  // As written: the decode loop of ChatMessages
  // ---------------------------------------------------------------------

  /** The state of Go's `json.Decoder` over the history: the index of the
      record under the read position, and whether a syntax error has been
      recorded. A recorded syntax error is returned by every later `Decode`
      without moving the read position. */
  datatype Decoder = Decoder(pos: nat, failed: bool)

  /** `More`: peeks at the next non-blank byte without consulting the
      recorded error. */
  predicate More(rs: seq<Record>, d: Decoder)
    ensures More(rs, d) ==> d.pos < |rs|
    ensures d.pos < |rs| && !rs[d.pos].Malformed? ==> More(rs, d)
    ensures d.pos < |rs| && rs[d.pos].Malformed? && rs[d.pos].opensWithCloser ==> !More(rs, d)
  {
    d.pos < |rs| && !(rs[d.pos].Malformed? && rs[d.pos].opensWithCloser)
  }

  /** One `Decode` call: the new state and the message it yields, if any. */
  function DecodeStep(rs: seq<Record>, d: Decoder): (r: (Decoder, Option<ChatMessage>))
    requires d.pos < |rs|
    ensures d.failed ==> r == (d, None)
    ensures rs[d.pos].Malformed? ==> r.0 == Decoder(d.pos, true) && r.1 == None
    ensures r.1.Some? ==> r.0 == Decoder(d.pos + 1, false)
    ensures r.0.pos == d.pos <==> d.failed || rs[d.pos].Malformed?
  {
    if d.failed then (d, None)
    else if rs[d.pos].Malformed? then (Decoder(d.pos, true), None)
    else (Decoder(d.pos + 1, false), DecodeRecord(rs[d.pos]))
  }

  /** The loop at pkg/sessions/session.go:171-178 as written, run for at most
      `fuel` iterations; None when it has not returned by then. */
  function ReadAsWritten(rs: seq<Record>, d: Decoder, fuel: nat): (r: Option<seq<ChatMessage>>)
    ensures !More(rs, d) ==> r == Some([])
    ensures r.Some? && d.pos <= |rs| ==> |r.value| <= |rs| - d.pos
    decreases fuel
  {
    if !More(rs, d) then Some([])
    else if fuel == 0 then None
    else
      var (next, m) := DecodeStep(rs, d);
      var rest := ReadAsWritten(rs, next, fuel - 1);
      if rest.None? then None
      else Some((if m.Some? then [m.value] else []) + rest.value)
  }

  /** Once a syntax error is recorded at a record that does not start with a
      closing bracket, the loop never returns, whatever the fuel. */
  lemma {:induction false} StuckDecoderNeverReturns(rs: seq<Record>, pos: nat, fuel: nat)
    requires pos < |rs| && rs[pos].Malformed? && !rs[pos].opensWithCloser
    ensures ReadAsWritten(rs, Decoder(pos, true), fuel) == None
    decreases fuel
  {
    if fuel > 0 {
      StuckDecoderNeverReturns(rs, pos, fuel - 1);
    }
  }

  /** Counterexample: a history whose only record is torn (for example `{"ro`)
      makes the as-written loop spin forever. */
  lemma TornRecordHangs(m: ChatMessage, fuel: nat)
    ensures ReadAsWritten([Encoded(m), Malformed(false, false)], Decoder(0, false), fuel) == None
  {
    var rs := [Encoded(m), Malformed(false, false)];
    if fuel >= 2 {
      StuckDecoderNeverReturns(rs, 1, fuel - 2);
      assert ReadAsWritten(rs, Decoder(1, false), fuel - 1) == None;
    }
  }

  /** A run of well-formed records ending in a torn one makes the as-written
      loop spin once it reaches the torn record. */
  lemma {:induction false} EncodedRunThenStuck(rs: seq<Record>, p: nat, fuel: nat)
    requires p < |rs| && rs[|rs| - 1].Malformed? && !rs[|rs| - 1].opensWithCloser
    requires forall j :: p <= j < |rs| - 1 ==> rs[j].Encoded?
    ensures ReadAsWritten(rs, Decoder(p, false), fuel) == None
    decreases |rs| - p
  {
    if fuel > 0 {
      if p == |rs| - 1 {
        StuckDecoderNeverReturns(rs, p, fuel - 1);
      } else {
        EncodedRunThenStuck(rs, p + 1, fuel - 1);
      }
    }
  }

  /** A `SetChatMessages` whose failing write tears its record leaves a
      history that the as-written `ChatMessages` never finishes reading. */
  lemma TornRewriteHangs(ms: seq<ChatMessage>, k: nat, disk: Disk, fuel: nat)
    requires k < |ms| && disk.torn
    ensures ReadAsWritten(Records(ms[..k]) + Leftover(disk), Decoder(0, false), fuel) == None
  {
    var rs := Records(ms[..k]) + Leftover(disk);
    assert rs[|rs| - 1] == Malformed(false, false);
    assert forall j :: 0 <= j < |rs| - 1 ==> rs[j] == Encoded(ms[..k][j]);
    EncodedRunThenStuck(rs, 0, fuel);
  }

  /** Counterexample: a malformed record starting with `}` ends the read, so
      the well-formed records after it are lost. */
  lemma CloserRecordTruncates(m1: ChatMessage, m2: ChatMessage, fuel: nat)
    requires fuel >= 1
    ensures ReadAsWritten([Encoded(m1), Malformed(true, true), Encoded(m2)], Decoder(0, false), fuel) == Some([m1])
    ensures Decoded([Encoded(m1), Malformed(true, true), Encoded(m2)]) == [m1, m2]
  {
    var rs := [Encoded(m1), Malformed(true, true), Encoded(m2)];
    assert More(rs, Decoder(0, false));
    assert DecodeStep(rs, Decoder(0, false)) == (Decoder(1, false), Some(m1));
    assert !More(rs, Decoder(1, false));
    assert ReadAsWritten(rs, Decoder(1, false), fuel - 1) == Some([]);
    assert [m1] + [] == [m1];
    assert rs[..2] == [Encoded(m1), Malformed(true, true)];
    assert rs[..2][..1] == [Encoded(m1)];
    assert [Encoded(m1)][..0] == [];
    assert Decoded([Encoded(m1)]) == [m1];
    assert Decoded(rs[..2]) == [m1];
  }

  /** On a history without syntax errors the as-written loop and the intended
      reading agree. */
  lemma {:induction false} ReadAsWrittenAgrees(rs: seq<Record>, pos: nat, fuel: nat)
    requires pos <= |rs| && fuel >= |rs| - pos
    requires forall k :: 0 <= k < |rs| ==> !rs[k].Malformed?
    ensures ReadAsWritten(rs, Decoder(pos, false), fuel) == Some(Decoded(rs[pos..]))
    decreases |rs| - pos
  {
    if pos == |rs| {
      assert rs[pos..] == [];
    } else {
      ReadAsWrittenAgrees(rs, pos + 1, fuel - 1);
      DecodedAppend([rs[pos]], rs[pos + 1..]);
      assert [rs[pos]] + rs[pos + 1..] == rs[pos..];
      assert [rs[pos]][..0] == [];
      var d := DecodeRecord(rs[pos]);
      assert Decoded([rs[pos]]) == (if d.Some? then [d.value] else []);
      assert DecodeStep(rs, Decoder(pos, false)) == (Decoder(pos + 1, false), d);
    }
  }

  // ---------------------------------------------------------------------
  // The session
  // ---------------------------------------------------------------------

  class Session {
    const id: string
    const path: string
    /** The history file's records; None while the file does not exist. */
    var history: Option<seq<Record>>
    var metadata: MetaFile

    constructor (id: string, path: string, history: Option<seq<Record>>, metadata: MetaFile)
      ensures this.id == id && this.path == path
      ensures this.history == history && this.metadata == metadata
    {
      this.id := id;
      this.path := path;
      this.history := history;
      this.metadata := metadata;
    }

    /** The records of the history file, empty while it does not exist. */
    function Existing(): seq<Record>
      reads this
    {
      if history.Some? then history.value else []
    }

    function LoadMetadata(): (r: Result<Metadata, StoreError>)
      reads this
      ensures r == LoadOf(metadata)
    {
      LoadOf(metadata)
    }

    /** `SaveMetadata`: `os.WriteFile` of the encoded metadata. */
    method SaveMetadata(m: Metadata, w: MetaWrite) returns (err: Option<StoreError>)
      modifies this
      ensures history == old(history)
      ensures metadata == SavedFile(old(metadata), m, w) && err == SaveError(w)
    {
      match w
      case MetaWritten =>
        metadata := StoredMeta(m);
        err := None;
      case MetaOpenFailed =>
        err := Some(OpenFailed);
      case MetaWriteFailed(left) =>
        metadata := left;
        err := Some(WriteFailed);
    }

    /** `UpdateLastAccessed`: only the access time changes. */
    method UpdateLastAccessed(now: int, w: MetaWrite) returns (err: Option<StoreError>)
      modifies this
      ensures history == old(history)
      ensures old(LoadMetadata()).Err? ==>
        metadata == old(metadata) && err == Some(old(LoadMetadata()).error)
      ensures old(LoadMetadata()).Ok? ==>
        metadata == SavedFile(old(metadata), old(LoadMetadata()).value.(lastAccessed := now), w) &&
        err == SaveError(w)
    {
      var loaded := LoadMetadata();
      if loaded.Err? {
        return Some(loaded.error);
      }
      var meta := loaded.value.(lastAccessed := now);
      err := SaveMetadata(meta, w);
    }

    /** `UpdateUsage(tokens, cost, count)`; the cost is left out. */
    method UpdateUsage(tokens: int64, count: int64, now: int, w: MetaWrite) returns (err: Option<StoreError>)
      modifies this
      ensures history == old(history)
      ensures old(LoadMetadata()).Err? ==>
        metadata == old(metadata) && err == Some(old(LoadMetadata()).error)
      ensures old(LoadMetadata()).Ok? ==>
        metadata == SavedFile(old(metadata), WithUsage(old(LoadMetadata()).value, tokens, count, now), w) &&
        err == SaveError(w)
    {
      var loaded := LoadMetadata();
      if loaded.Err? {
        return Some(loaded.error);
      }
      var meta := loaded.value;
      meta := meta.(totalTokens := AddInt64(meta.totalTokens, tokens));
      meta := meta.(messageCount := AddInt64(meta.messageCount, count));
      meta := meta.(lastAccessed := now);
      err := SaveMetadata(meta, w);
    }

    /** `AddChatMessage`: opening creates the file; the record is appended when
        the message encodes and its write succeeds, and a failing write may
        leave a torn record, into which the next append runs. */
    method AddChatMessage(m: ChatMessage, disk: Disk) returns (err: Option<StoreError>)
      modifies this
      ensures metadata == old(metadata)
      ensures !disk.opens ==> history == old(history) && err == Some(OpenFailed)
      ensures disk.opens && !EncodableMessage(m) ==>
        history == Some(old(Existing())) && err == Some(MarshalFailed)
      ensures disk.opens && EncodableMessage(m) && !WriteSucceeds(disk, 0) ==>
        history == Some(Joined(old(Existing()), Leftover(disk))) && err == Some(WriteFailed)
      ensures disk.opens && EncodableMessage(m) && WriteSucceeds(disk, 0) ==>
        history == Some(Glued(old(Existing()), Encoded(m))) && err == None
      ensures disk.opens && EncodableMessage(m) && WriteSucceeds(disk, 0) && !EndsTorn(old(Existing())) ==>
        history == Some(old(Existing()) + [Encoded(m)])
      ensures history == AppendOutcome(old(history), m, disk)
    {
      if !disk.opens {
        return Some(OpenFailed);
      }
      history := Some(Existing());
      if !EncodableMessage(m) {
        return Some(MarshalFailed);
      }
      if !WriteSucceeds(disk, 0) {
        history := Some(Joined(history.value, Leftover(disk)));
        return Some(WriteFailed);
      }
      history := Some(Glued(history.value, Encoded(m)));
      err := None;
    }

    /** `SetChatMessages`: truncates the history and writes the messages in
        order, stopping at the first that does not encode or whose write
        fails; a failing write may leave a torn record. */
    method SetChatMessages(ms: seq<ChatMessage>, disk: Disk) returns (err: Option<StoreError>)
      modifies this
      ensures metadata == old(metadata)
      ensures !disk.opens ==> history == old(history) && err == Some(OpenFailed)
      ensures disk.opens ==>
        var k := WrittenCount(ms, disk, 0);
        history == Some(Records(ms[..k]) + (if k < |ms| && EncodableMessage(ms[k]) then Leftover(disk) else [])) &&
        (k == |ms| ==> err == None) &&
        (k < |ms| && !EncodableMessage(ms[k]) ==> err == Some(MarshalFailed)) &&
        (k < |ms| && EncodableMessage(ms[k]) ==> err == Some(WriteFailed))
    {
      if !disk.opens {
        return Some(OpenFailed);
      }
      history := Some([]);
      ghost var k := WrittenCount(ms, disk, 0);
      var i := 0;
      while i < |ms|
        invariant 0 <= i <= k
        invariant history == Some(Records(ms[..i]))
        invariant metadata == old(metadata)
      {
        if !EncodableMessage(ms[i]) {
          assert i == k && Records(ms[..i]) + [] == Records(ms[..i]);
          return Some(MarshalFailed);
        }
        if !WriteSucceeds(disk, i) {
          history := Some(history.value + Leftover(disk));
          return Some(WriteFailed);
        }
        assert ms[..i + 1] == ms[..i] + [ms[i]];
        history := Some(history.value + [Encoded(ms[i])]);
        i := i + 1;
      }
      assert ms[..i] == ms;
      err := None;
    }

    /** `ChatMessages`, reading as intended: nothing when the file is absent
        or does not open, otherwise every decodable record in file order. */
    method ChatMessages(opens: bool) returns (msgs: seq<ChatMessage>)
      ensures history.None? || !opens ==> msgs == []
      ensures history.Some? && opens ==> msgs == Decoded(history.value)
    {
      msgs := [];
      if history.None? || !opens {
        return;
      }
      var rs := history.value;
      var i := 0;
      while i < |rs|
        invariant 0 <= i <= |rs|
        invariant msgs == Decoded(rs[..i])
      {
        assert rs[..i + 1][..i] == rs[..i];
        var d := DecodeRecord(rs[i]);
        if d.Some? {
          msgs := msgs + [d.value];
        }
        i := i + 1;
      }
      assert rs[..i] == rs;
    }

    /** `ClearChatMessages`: the history exists and is empty afterwards. */
    method ClearChatMessages(opens: bool) returns (err: Option<StoreError>)
      modifies this
      ensures metadata == old(metadata)
      ensures opens ==> history == Some([]) && err == None
      ensures !opens ==> history == old(history) && err == Some(OpenFailed)
    {
      if !opens {
        return Some(OpenFailed);
      }
      history := Some([]);
      err := None;
    }
  }
}
