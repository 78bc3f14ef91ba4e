/** The hash-arbiter decode. No codec is recorded with an object: its first bytes and its
hash decide how it is read back. */
module Restore {
  import opened Content

  /** The zstd frame magic, section 3.1.1 of RFC 8878. */
  const MAGIC: Bytes := [0x28, 0xB5, 0x2F, 0xFD]

  datatype End = Clean | BadFormat | ReadError

  /** What the streaming decoder delivers for an input: its output, how that ends, and
  whether it got as far as the end of the input. */
  datatype Decoded = Decoded(out: Bytes, end: End, touched: bool)

  /** The decoder on an input that ends in EOF, or (second argument) in a read error. */
  type Decoder = (Bytes, bool) -> Decoded

  datatype Env = Env(hash: Hash, compress: Compressor, decode: Decoder, cap: nat)

  /** The bound on compressed input: cap + cap>>6 + 1 MiB. */
  function MaxCompressed(cap: nat): nat {
    cap + cap / 64 + 1048576
  }

  predicate HasMagic(x: Bytes) {
    |x| >= 4 && x[..4] == MAGIC
  }

  /** The hypotheses on the codec: lossless; a non-empty input compresses to a frame with the
  magic and an empty one to nothing; expansion within the zstd bound; a read error is
  reported as one, and is what a decoder meets on a truncated frame. */
  ghost predicate CodecContract(env: Env) {
    && (forall p :: env.decode(env.compress(p), false) == Decoded(p, Clean, true))
    && (forall p :: if p == [] then env.compress(p) == [] else HasMagic(env.compress(p)))
    && (forall p :: |env.compress(p)| <= |p| + |p| / 256 + 64)
    && (forall x :: !env.decode(x, true).end.Clean?)
    && (forall x, cut :: env.decode(x, cut).end.ReadError? ==> cut && env.decode(x, cut).touched)
    && (forall p, k: nat :: k <= |env.compress(p)| ==>
          env.decode(env.compress(p)[..k], true).end.ReadError? && env.decode(env.compress(p)[..k], true).out <= p)
  }

  /** What a fetch of the stored object delivers: bytes, then EOF or a read error. */
  datatype Fetch = FetchFailed | Fetched(bytes: Bytes, fault: bool)

  datatype CopyErr = NoErr | HashMismatch | StreamErr | WriteErr

  datatype Outcome = Ok | FetchError | PeekError | SourceError | ResetError | ReadFailure | Corrupt

  /** The accidents of one decode: where each pass over the destination fails to write, if
  it does; whether the decoder had met the end of its input when copying stopped early;
  whether the rewind fails. */
  datatype Accidents = Accidents(room1: Option<nat>, room2: Option<nat>, sawEnd: bool, resetFails: bool)

  // ---- the specification -----------------------------------------------------------

  /** How many bytes of `out` a bounded copy asks the destination to take. */
  function Asked(env: Env, out: Bytes): nat {
    Min(|out|, env.cap + 1)
  }

  predicate Accepts(room: Option<nat>, n: nat) {
    room.None? || n <= room.value
  }

  /** What one `copyVerify` leaves on the destination. */
  function Written(env: Env, out: Bytes, room: Option<nat>): Bytes {
    if Accepts(room, Asked(env, out)) then out[..Asked(env, out)] else out[..Min(room.value, |out|)]
  }

  function CopyOutcome(env: Env, key: Id, out: Bytes, end: End, room: Option<nat>): (r: (bool, CopyErr)) {
    if !Accepts(room, Asked(env, out)) then (false, WriteErr)
    else if |out| > env.cap then (true, NoErr)
    else if !end.Clean? then (false, StreamErr)
    else if env.hash(out) != key then (false, HashMismatch)
    else (false, NoErr)
  }

  /** The decoder behind its input limit. */
  function Limited(env: Env, bytes: Bytes, fault: bool): Decoded {
    var n := MaxCompressed(env.cap);
    if |bytes| < n then env.decode(bytes, fault) else env.decode(bytes[..n], false)
  }

  /** Whether the tracking reader recorded a source error. */
  predicate SourceFaultSeen(env: Env, bytes: Bytes, fault: bool, acc: Accidents) {
    var d := Limited(env, bytes, fault);
    var early := !Accepts(acc.room1, Asked(env, d.out)) || |d.out| > env.cap;
    fault && |bytes| < MaxCompressed(env.cap) && (if early then acc.sawEnd else d.touched)
  }

  datatype ZstdResult = Decoded1 | TryRaw | SourceFault

  function ZstdOutcome(env: Env, key: Id, bytes: Bytes, fault: bool, acc: Accidents): ZstdResult {
    var d := Limited(env, bytes, fault);
    var (overCap, err) := CopyOutcome(env, key, d.out, d.end, acc.room1);
    if SourceFaultSeen(env, bytes, fault, acc) then SourceFault
    else if overCap || !err.NoErr? then TryRaw
    else Decoded1
  }

  function RawOutcome(env: Env, key: Id, bytes: Bytes, fault: bool, room: Option<nat>): Outcome {
    var (overCap, err) := CopyOutcome(env, key, bytes, if fault then ReadError else Clean, room);
    if err.StreamErr? || err.WriteErr? then ReadFailure
    else if overCap || err.HashMismatch? then Corrupt
    else Ok
  }

  function DecodeOutcome(env: Env, key: Id, first: Fetch, second: Fetch, acc: Accidents): Outcome {
    if first.FetchFailed? then FetchError
    else if |first.bytes| < 4 && first.fault then PeekError
    else if !HasMagic(first.bytes) then RawOutcome(env, key, first.bytes, first.fault, acc.room1)
    else match ZstdOutcome(env, key, first.bytes, first.fault, acc)
      case Decoded1 => Ok
      case SourceFault => SourceError
      case TryRaw =>
        if acc.resetFails then ResetError
        else if second.FetchFailed? then FetchError
        else RawOutcome(env, key, second.bytes, second.fault, acc.room2)
  }

  /** What ends up on the destination when a decode succeeds. */
  function Restored(env: Env, key: Id, first: Fetch, second: Fetch, acc: Accidents): Bytes
    requires DecodeOutcome(env, key, first, second, acc) == Ok
  {
    if !HasMagic(first.bytes) then first.bytes
    else if ZstdOutcome(env, key, first.bytes, first.fault, acc).Decoded1? then Limited(env, first.bytes, first.fault).out
    else second.bytes
  }

  // ---- the code ----------------------------------------------------------------------

  /** A destination that decode appends to and rewinds. */
  class Dest {
    var content: Bytes

    constructor ()
      ensures content == []
    {
      content := [];
    }

    method CopyVerify(env: Env, key: Id, out: Bytes, end: End, room: Option<nat>) returns (overCap: bool, err: CopyErr)
      modifies this
      ensures content == old(content) + Written(env, out, room)
      ensures (overCap, err) == CopyOutcome(env, key, out, end, room)
    {
      var n := Min(|out|, env.cap + 1);
      if room.Some? && room.value < n {
        content := content + out[..Min(room.value, |out|)];
        return false, WriteErr;
      }
      content := content + out[..n];
      if n > env.cap {
        return true, NoErr;
      }
      if !end.Clean? {
        return false, StreamErr;
      }
      assert out[..n] == out;
      if env.hash(out) != key {
        return false, HashMismatch;
      }
      return false, NoErr;
    }

    method DecodeRaw(env: Env, key: Id, bytes: Bytes, fault: bool, room: Option<nat>) returns (r: Outcome)
      modifies this
      ensures content == old(content) + Written(env, bytes, room)
      ensures r == RawOutcome(env, key, bytes, fault, room)
    {
      var overCap, err := CopyVerify(env, key, bytes, if fault then ReadError else Clean, room);
      if !err.NoErr? && !err.HashMismatch? {
        return ReadFailure;
      }
      if overCap {
        return Corrupt;
      }
      if err.HashMismatch? {
        return Corrupt;
      }
      return Ok;
    }

    method DecodeZstd(env: Env, key: Id, bytes: Bytes, fault: bool, acc: Accidents) returns (r: ZstdResult)
      modifies this
      ensures content == old(content) + Written(env, Limited(env, bytes, fault).out, acc.room1)
      ensures r == ZstdOutcome(env, key, bytes, fault, acc)
    {
      var d := Limited(env, bytes, fault);
      var overCap, verr := CopyVerify(env, key, d.out, d.end, acc.room1);
      if SourceFaultSeen(env, bytes, fault, acc) {
        return SourceFault;
      }
      if overCap || !verr.NoErr? {
        return TryRaw;
      }
      return Decoded1;
    }

    /** The whole arbiter. On success the destination holds verified plaintext. */
    method DecodeStream(env: Env, key: Id, first: Fetch, second: Fetch, acc: Accidents) returns (r: Outcome)
      requires content == []
      modifies this
      ensures r == DecodeOutcome(env, key, first, second, acc)
      ensures r == Ok ==> env.hash(content) == key && |content| <= env.cap
      ensures r == Ok ==> content == Restored(env, key, first, second, acc)
    {
      if first.FetchFailed? {
        return FetchError;
      }
      if |first.bytes| < 4 && first.fault {
        return PeekError;
      }
      if HasMagic(first.bytes) {
        var derr := DecodeZstd(env, key, first.bytes, first.fault, acc);
        if derr.Decoded1? {
          assert content == Limited(env, first.bytes, first.fault).out;
          return Ok;
        }
        if !derr.TryRaw? {
          return SourceError;
        }
        if acc.resetFails {
          return ResetError;
        }
        content := [];
        if second.FetchFailed? {
          return FetchError;
        }
        r := DecodeRaw(env, key, second.bytes, second.fault, acc.room2);
        assert r == Ok ==> content == second.bytes;
        return;
      }
      r := DecodeRaw(env, key, first.bytes, first.fault, acc.room1);
      assert r == Ok ==> content == first.bytes;
    }
  }

  // ---- theorems ------------------------------------------------------------------------

  /** No accident at all. */
  const SMOOTH := Accidents(None, None, false, false)

  /** The input limit never truncates a legitimate object. */
  lemma LegitimateFits(env: Env, codec: Codec, p: Bytes)
    requires CodecContract(env) && |p| <= env.cap
    ensures |Encode(env.compress, codec, p)| < MaxCompressed(env.cap)
  {
    assert |env.compress(p)| <= |p| + |p| / 256 + 64;
    assert |p| / 256 <= env.cap / 64;
  }

  /** Round trip. Every plaintext within the cap, stored raw or compressed, decodes to itself,
  whatever its bytes: also when raw bytes begin with the magic or are a zstd frame
  of something else, oversized or not. */
  lemma RoundTrip(env: Env, codec: Codec, p: Bytes, sawEnd: bool)
    requires CodecContract(env) && CollisionFree(env.hash) && |p| <= env.cap
    ensures var x := Fetched(Encode(env.compress, codec, p), false);
            var acc := SMOOTH.(sawEnd := sawEnd);
            && DecodeOutcome(env, env.hash(p), x, x, acc) == Ok
            && Restored(env, env.hash(p), x, x, acc) == p
  {
    var x := Encode(env.compress, codec, p);
    LegitimateFits(env, codec, p);
    if codec.CodecZstd? && p != [] {
      assert HasMagic(env.compress(p));
      assert env.decode(env.compress(p), false) == Decoded(p, Clean, true);
    } else if codec.CodecZstd? {
      assert env.compress(p) == [];
    }
  }

  /** A fetch of the good stored bytes `x` that may be cut short by a read error. */
  predicate DeliversPartOf(f: Fetch, x: Bytes) {
    f.Fetched? ==> f.bytes <= x && (!f.fault ==> f.bytes == x)
  }

  lemma CutFrame(env: Env, p: Bytes, k: nat)
    requires CodecContract(env) && k <= |env.compress(p)|
    ensures var d := env.decode(env.compress(p)[..k], true);
            d.end.ReadError? && d.touched && |d.out| <= |p|
  {
  }

  /** What the first pass over a fetch of a compressed object delivers: at most the plaintext,
  all of it when the fetch is clean, and otherwise a read error that the tracking sees. */
  lemma FirstPass(env: Env, p: Bytes, f: Fetch)
    requires CodecContract(env) && |p| <= env.cap && f.Fetched? && DeliversPartOf(f, env.compress(p))
    ensures var d := Limited(env, f.bytes, f.fault);
            && |f.bytes| < MaxCompressed(env.cap) && |d.out| <= |p|
            && (if f.fault then d.end.ReadError? && d.touched else d == Decoded(p, Clean, true))
  {
    LegitimateFits(env, CodecZstd, p);
    assert f.bytes == env.compress(p)[..|f.bytes|];
    if f.fault {
      CutFrame(env, p, |f.bytes|);
    } else {
      assert env.decode(env.compress(p), false) == Decoded(p, Clean, true);
    }
  }

  /** The zstd pass stops on a destination that takes no more, before a source error is met. */
  predicate WriteStopsFirstPass(env: Env, first: Fetch, acc: Accidents) {
    && first.Fetched? && |first.bytes| >= 4
    && !Accepts(acc.room1, Asked(env, Limited(env, first.bytes, first.fault).out))
    && !(first.fault && acc.sawEnd)
  }

  /** The raw retry gets far enough to judge bytes that are not the plaintext. */
  predicate RetryJudges(env: Env, p: Bytes, second: Fetch, acc: Accidents) {
    && !acc.resetFails && second.Fetched? && Accepts(acc.room2, Asked(env, second.bytes))
    && (|second.bytes| > env.cap || (!second.fault && second.bytes != p))
  }

  /** When a good object is judged corrupt, over every pair of fetches that deliver it in
  whole or in part and every accident: exactly when it is stored compressed, the destination
  stops the first pass before a source error is met, and the raw retry judges the compressed
  bytes. A source fault alone never does it; a destination write error, which is not tracked
  the way a source error is, can. */
  lemma CorruptExactly(env: Env, codec: Codec, p: Bytes, first: Fetch, second: Fetch, acc: Accidents)
    requires CodecContract(env) && CollisionFree(env.hash) && |p| <= env.cap
    requires DeliversPartOf(first, Encode(env.compress, codec, p)) && DeliversPartOf(second, Encode(env.compress, codec, p))
    ensures DecodeOutcome(env, env.hash(p), first, second, acc) == Corrupt <==>
              codec.CodecZstd? && p != [] && WriteStopsFirstPass(env, first, acc) && RetryJudges(env, p, second, acc)
  {
    hide Limited, CodecContract;
    if codec.CodecNone? || first.FetchFailed? {
    } else if p == [] {
      EmptyStored(env);
    } else {
      FirstPass(env, p, first);
      MagicInPrefix(env, p, first.bytes);
      LongEnough(env, p);
    }
  }

  lemma EmptyStored(env: Env)
    requires CodecContract(env)
    ensures env.compress([]) == []
  {
  }

  lemma MagicInPrefix(env: Env, p: Bytes, x: Bytes)
    requires CodecContract(env) && p != [] && x <= env.compress(p)
    ensures HasMagic(x) <==> |x| >= 4
  {
    assert HasMagic(env.compress(p));
    if |x| >= 4 {
      assert x[..4] == env.compress(p)[..4];
    }
  }

  /** So a source read fault never becomes a corruption verdict on any destination with room
  for the plaintext, nor on any destination at all for an object stored raw. */
  lemma SourceFaultIsNotCorruption(env: Env, codec: Codec, p: Bytes, first: Fetch, second: Fetch, acc: Accidents)
    requires CodecContract(env) && CollisionFree(env.hash) && |p| <= env.cap
    requires codec.CodecNone? || Accepts(acc.room1, |p|)
    requires DeliversPartOf(first, Encode(env.compress, codec, p)) && DeliversPartOf(second, Encode(env.compress, codec, p))
    ensures DecodeOutcome(env, env.hash(p), first, second, acc) != Corrupt
  {
    hide DecodeOutcome, CodecContract, Limited;
    CorruptExactly(env, codec, p, first, second, acc);
    if codec.CodecZstd? && first.Fetched? {
      FirstPass(env, p, first);
    }
  }

  /** And so a transiently full scratch disk does: on clean fetches of a compressed object the
  verdict is Corrupt if and only if the first pass runs out of room and the rewind and the
  writes of the raw retry go through. */
  lemma WriteFaultBecomesCorruption(env: Env, p: Bytes, acc: Accidents)
    requires CodecContract(env) && CollisionFree(env.hash) && |p| <= env.cap && p != [] && env.compress(p) != p
    ensures var x := Fetched(env.compress(p), false);
            DecodeOutcome(env, env.hash(p), x, x, acc) == Corrupt <==>
              !Accepts(acc.room1, |p|) && !acc.resetFails && Accepts(acc.room2, Asked(env, env.compress(p)))
  {
    hide DecodeOutcome, CodecContract, Limited;
    var x := Fetched(env.compress(p), false);
    CorruptExactly(env, CodecZstd, p, x, x, acc);
    FirstPass(env, p, x);
    MagicInPrefix(env, p, x.bytes);
    LongEnough(env, p);
  }

  lemma LongEnough(env: Env, p: Bytes)
    requires CodecContract(env) && p != []
    ensures |env.compress(p)| >= 4
  {
    assert HasMagic(env.compress(p));
  }

  // ---- what is judged corrupt, for any stored bytes --------------------------------------

  /** The plaintext `q` is what `key` names, and may be restored. */
  predicate IsObject(env: Env, key: Id, q: Bytes) {
    env.hash(q) == key && |q| <= env.cap
  }

  /** Stored bytes have an admissible reading: they are the object themselves, or they start
  with the frame magic and decompress cleanly to it within the input limit. */
  predicate Readable(env: Env, key: Id, x: Bytes) {
    IsObject(env, key, x) || ReadableAsFrame(env, key, x)
  }

  predicate ReadableAsFrame(env: Env, key: Id, x: Bytes) {
    && |x| >= 4 && x[..4] == [0x28, 0xB5, 0x2F, 0xFD]
    && var n := env.cap + env.cap / 64 + 1048576;
       var d := env.decode(if |x| < n then x else x[..n], false);
       d.end.Clean? && IsObject(env, key, d.out)
  }

  /** Detection, for any stored bytes at all. Read in full and written without accident they are
  restored exactly when they have an admissible reading, and judged corrupt exactly when they
  have none: no third verdict. */
  lemma CorruptionIsDetected(env: Env, key: Id, x: Bytes, sawEnd: bool)
    ensures var f := Fetched(x, false);
            var acc := SMOOTH.(sawEnd := sawEnd);
            && (DecodeOutcome(env, key, f, f, acc) == Ok <==> Readable(env, key, x))
            && (DecodeOutcome(env, key, f, f, acc) == Corrupt <==> !Readable(env, key, x))
  {
  }

  /** A fetch that a copy judges: all it asks is written, and it was over the cap, or read to
  its end and of another hash. */
  predicate JudgedBad(env: Env, key: Id, f: Fetch, room: Option<nat>) {
    && f.Fetched? && (room.None? || room.value > env.cap || room.value >= |f.bytes|)
    && (|f.bytes| > env.cap || (!f.fault && env.hash(f.bytes) != key))
  }

  predicate JudgedGood(env: Env, key: Id, f: Fetch, room: Option<nat>) {
    f.Fetched? && (room.None? || room.value >= |f.bytes|) && !f.fault && IsObject(env, key, f.bytes)
  }

  /** How the zstd pass over a fetch with the magic ends: in the object, in a source error that
  was met, or in a request for the raw retry. */
  predicate FrameGood(env: Env, key: Id, f: Fetch, acc: Accidents)
    requires f.Fetched?
  {
    var d := Limited(env, f.bytes, f.fault);
    (acc.room1.None? || acc.room1.value >= |d.out|) && d.end.Clean? && IsObject(env, key, d.out) && !FrameFaulted(env, f, acc)
  }

  predicate FrameFaulted(env: Env, f: Fetch, acc: Accidents)
    requires f.Fetched?
  {
    var d := Limited(env, f.bytes, f.fault);
    var stopped := |d.out| > env.cap || (acc.room1.Some? && acc.room1.value < |d.out|);
    f.fault && |f.bytes| < MaxCompressed(env.cap) && (if stopped then acc.sawEnd else d.touched)
  }

  /** Every outcome, each exactly when, over all fetches and accidents. A fetch that fails, a
  peek or a read that breaks off, and a destination that refuses are told apart from corruption,
  which takes bytes that were read and judged. */
  lemma OutcomeExactly(env: Env, key: Id, first: Fetch, second: Fetch, acc: Accidents)
    ensures var o := DecodeOutcome(env, key, first, second, acc);
            var peeked := first.Fetched? && !(first.fault && |first.bytes| < 4);
            var raw := peeked && !HasMagic(first.bytes);
            var frame := peeked && HasMagic(first.bytes);
            var retry := frame && !FrameFaulted(env, first, acc) && !FrameGood(env, key, first, acc);
            var again := retry && !acc.resetFails && second.Fetched?;
            && (o == Ok <==> (raw && JudgedGood(env, key, first, acc.room1)) || (frame && FrameGood(env, key, first, acc))
                             || (again && JudgedGood(env, key, second, acc.room2)))
            && (o == Corrupt <==> (raw && JudgedBad(env, key, first, acc.room1)) || (again && JudgedBad(env, key, second, acc.room2)))
            && (o == PeekError <==> first.Fetched? && !peeked)
            && (o == SourceError <==> frame && FrameFaulted(env, first, acc))
            && (o == ResetError <==> retry && acc.resetFails)
            && (o == FetchError <==> first.FetchFailed? || (retry && !acc.resetFails && second.FetchFailed?))
  {
    hide Limited;
  }

  /** Bytes past the input limit are never looked at. */
  lemma InputIsBounded(env: Env, x: Bytes, y: Bytes, f: bool, g: bool)
    requires var n := env.cap + env.cap / 64 + 1048576; |x| >= n && |y| >= n && x[..n] == y[..n]
    ensures Limited(env, x, f) == Limited(env, y, g)
  {
  }

  // ---- restoring into the primary store ------------------------------------------------

  /** How the durable publish of a written temp ends: refused before the rename (create,
  fsync, close, cancelled context, chmod, rename), failed after it (directory fsync), or done. */
  datatype Publish = NotRenamed | RenamedNotSynced | Published

  datatype RestoreResult = InvalidHash | Skipped | Interrupted | DecodeFailed(why: Outcome) | PublishFailed | Fresh

  /** A file that may stand under `key` in the restore directory: its verified plaintext. */
  predicate Intact(env: Env, key: Id, bytes: Bytes) {
    env.hash(bytes) == key && |bytes| <= env.cap
  }

  /** What the copy check says of a file that is already in place. */
  lemma IntactExactly(env: Env, key: Id, bytes: Bytes, readFault: bool)
    ensures var (overCap, err) := CopyOutcome(env, key, bytes, if readFault then ReadError else Clean, None);
            err.NoErr? && !overCap <==> Intact(env, key, bytes) && !readFault
  {
  }

  class RestoreDir {
    var files: map<Id, Bytes>

    /** One object. Whatever fails, the only file ever put in place is verified plaintext. */
    method RestoreObject(env: Env, key: Id, unreadable: bool, readFault: bool, cancelled: bool,
                         first: Fetch, second: Fetch, acc: Accidents, abandoned: bool, publish: Publish)
      returns (r: RestoreResult)
      modifies this
      ensures forall k :: k != key ==> (k in files <==> k in old(files)) && (k in files ==> files[k] == old(files)[k])
      ensures files == old(files) || (key in files && Intact(env, key, files[key]))
      ensures r == InvalidHash <==> !IsContentHash(key)
      ensures r == Skipped || r == Fresh ==> key in files && Intact(env, key, files[key])
      ensures r == Skipped <==> IsContentHash(key) && key in old(files) && Intact(env, key, old(files)[key]) && !unreadable && !readFault
      ensures r == Skipped || r == Interrupted || r.DecodeFailed? || r == InvalidHash ==> files == old(files)
      ensures r == Fresh ==> DecodeOutcome(env, key, first, second, acc) == Ok && files == old(files)[key := Restored(env, key, first, second, acc)]
      ensures r == Interrupted || r == Skipped || r == InvalidHash || r ==
                if DecodeOutcome(env, key, first, second, acc) != Ok then DecodeFailed(DecodeOutcome(env, key, first, second, acc))
                else if publish.Published? then Fresh else PublishFailed
      ensures r == Interrupted ==> abandoned || cancelled
      ensures publish.NotRenamed? ==> files == old(files)
    {
      hide DecodeOutcome, Restored, IsContentHash, CopyOutcome, Written;
      var valid := ValidateContentHash(key);
      if !valid {
        return InvalidHash;
      }
      if key in files && !unreadable {
        var scratch := new Dest();
        var overCap, verr := scratch.CopyVerify(env, key, files[key], if readFault then ReadError else Clean, None);
        IntactExactly(env, key, files[key], readFault);
        if verr.NoErr? && !overCap {
          return Skipped;
        }
        if cancelled {
          return Interrupted;
        }
      }
      var tmp := new Dest();
      var err := tmp.DecodeStream(env, key, first, second, acc);
      if abandoned {
        return Interrupted;
      }
      if err != Ok {
        return DecodeFailed(err);
      }
      match publish
      case NotRenamed =>
        r := PublishFailed;
      case RenamedNotSynced =>
        files := files[key := tmp.content];
        r := PublishFailed;
      case Published =>
        files := files[key := tmp.content];
        r := Fresh;
    }
  }

  /** Disaster recovery end to end: any object a backup committed, whatever codec its target
  used, restores to exactly the plaintext that was backed up. */
  lemma BackupRestores(env: Env, codec: Codec, p: Bytes, key: Id, stored: Bytes, sawEnd: bool)
    requires CodecContract(env) && CollisionFree(env.hash) && env.cap > 0
    requires exists q :: Verified(env.hash, key, env.cap, q) && stored == Encode(env.compress, codec, q)
    requires env.hash(p) == key
    ensures var f := Fetched(stored, false);
            var acc := SMOOTH.(sawEnd := sawEnd);
            DecodeOutcome(env, key, f, f, acc) == Ok && Restored(env, key, f, f, acc) == p
  {
    var q :| Verified(env.hash, key, env.cap, q) && stored == Encode(env.compress, codec, q);
    RoundTrip(env, codec, q, sawEnd);
  }
}
