/** Object bytes, their identity, the per-target codecs, and the verifying reader. */
module Content {

  newtype Byte = x: int | 0 <= x < 256
  type Bytes = seq<Byte>

  /** An externalID: the hex digest of the plaintext. */
  type Id = string

  /** The ingress gate: exactly 64 lowercase hex digits. */
  predicate IsContentHash(s: Id) {
    |s| == 64 && forall i :: 0 <= i < 64 ==> '0' <= s[i] <= '9' || 'a' <= s[i] <= 'f'
  }

  /** The gate's loop. */
  method ValidateContentHash(s: Id) returns (ok: bool)
    ensures ok <==> IsContentHash(s)
  {
    if |s| != 64 {
      return false;
    }
    for i := 0 to |s|
      invariant forall k :: 0 <= k < i ==> '0' <= s[k] <= '9' || 'a' <= s[k] <= 'f'
    {
      var c := s[i];
      if (c < '0' || c > '9') && (c < 'a' || c > 'f') {
        return false;
      }
    }
    return true;
  }

  function HexDigit(n: nat): char
    requires n < 16
  {
    "0123456789abcdef"[n]
  }

  /** The hex rendering of a digest. */
  function Hex(digest: Bytes): string {
    if digest == [] then ""
    else [HexDigit(digest[0] as nat / 16), HexDigit(digest[0] as nat % 16)] + Hex(digest[1..])
  }

  lemma {:induction false} HexDigits(digest: Bytes)
    ensures |Hex(digest)| == 2 * |digest|
    ensures forall i :: 0 <= i < |Hex(digest)| ==> '0' <= Hex(digest)[i] <= '9' || 'a' <= Hex(digest)[i] <= 'f'
  {
    if digest != [] {
      HexDigits(digest[1..]);
    }
  }

  function HexValue(c: char): (n: nat)
    requires '0' <= c <= '9' || 'a' <= c <= 'f'
    ensures n < 16 && HexDigit(n) == c
  {
    if c <= '9' then c as nat - '0' as nat else c as nat - 'a' as nat + 10
  }

  lemma {:induction false} Unhex(s: string) returns (digest: Bytes)
    requires |s| % 2 == 0 && forall i :: 0 <= i < |s| ==> '0' <= s[i] <= '9' || 'a' <= s[i] <= 'f'
    ensures |digest| == |s| / 2 && Hex(digest) == s
    decreases |s|
  {
    if s == "" {
      digest := [];
    } else {
      var rest := Unhex(s[2..]);
      var b := (16 * HexValue(s[0]) + HexValue(s[1])) as Byte;
      digest := [b] + rest;
      assert digest[1..] == rest && b as nat / 16 == HexValue(s[0]) && b as nat % 16 == HexValue(s[1]);
      assert s == [s[0], s[1]] + s[2..];
    }
  }

  /** The gate lets through exactly the renderings of 32-byte digests. */
  lemma ContentHashesAreDigests(s: Id)
    ensures IsContentHash(s) <==> exists digest: Bytes :: |digest| == 32 && Hex(digest) == s
  {
    if IsContentHash(s) {
      var digest := Unhex(s);
    }
    forall digest: Bytes | |digest| == 32 && Hex(digest) == s ensures IsContentHash(s) {
      HexDigits(digest);
    }
  }

  function Bit(b: bool): nat {
    if b then 1 else 0
  }

  function Min(a: nat, b: nat): nat {
    if a < b then a else b
  }

  datatype Option<+T> = None | Some(value: T)

  /** The errors whose class the code branches on; `Fault` is every other one. */
  datatype Err = EOF | UnexpectedEOF | Integrity | ClosedPipe | Deadline | Canceled | Fault

  datatype Codec = CodecNone | CodecZstd

  /** The digest and the compressor are parameters of the whole model. */
  type Hash = Bytes -> Id
  type Compressor = Bytes -> Bytes

  ghost predicate CollisionFree(hash: Hash) {
    forall p, q :: hash(p) == hash(q) ==> p == q
  }

  /** What a target stores for the plaintext `p`. */
  function Encode(compress: Compressor, codec: Codec, p: Bytes): Bytes {
    match codec
    case CodecNone => p
    case CodecZstd => compress(p)
  }

  predicate WithinCap(cap: nat, n: nat) {
    cap > 0 ==> n <= cap
  }

  /** The bytes that may be committed under `key`: they hash to it and fit the cap. */
  predicate Verified(hash: Hash, key: Id, cap: nat, seen: Bytes) {
    hash(seen) == key && WithinCap(cap, |seen|)
  }

  predicate EndOfStream(e: Option<Err>) {
    e == Some(EOF) || e == Some(UnexpectedEOF)
  }

  /** What a read reports once the bytes of that read are part of `seen`: the end of the
  stream exactly for verified bytes, and otherwise the reader's own error unless these bytes
  can no longer be the object. */
  function Verdict(hash: Hash, want: Id, maxLen: nat, seen: Bytes, e: Option<Err>): (r: Option<Err>)
    ensures EndOfStream(r) <==> EndOfStream(e) && Verified(hash, want, maxLen, seen)
    ensures r == None <==> e == None && WithinCap(maxLen, |seen|)
    ensures WithinCap(maxLen, |seen|) && (EndOfStream(e) ==> hash(seen) == want) ==> r == e
    ensures r == e || r == Some(Integrity)
  {
    if maxLen > 0 && |seen| > maxLen then Some(Integrity)
    else if EndOfStream(e) && hash(seen) != want then Some(Integrity)
    else e
  }

  /** Streams bytes through while hashing them. `seen` is the input of the running hash. */
  class VerifyReader {
    const hash: Hash
    const want: Id
    const maxLen: nat
    var seen: Bytes
    var Total: nat

    ghost predicate Valid() reads this { Total == |seen| }

    constructor (hash: Hash, want: Id, maxLen: nat)
      ensures Valid() && seen == []
      ensures this.hash == hash && this.want == want && this.maxLen == maxLen
    {
      this.hash, this.want, this.maxLen := hash, want, maxLen;
      seen, Total := [], 0;
    }

    /** `n` and `e` are what the wrapped reader returned for this call. */
    method Read(n: Bytes, e: Option<Err>) returns (err: Option<Err>)
      requires Valid()
      modifies this
      ensures Valid() && seen == old(seen) + n
      ensures err == Verdict(hash, want, maxLen, seen, e)
    {
      if |n| > 0 {
        seen := seen + n;
        Total := Total + |n|;
      }
      if maxLen > 0 && Total > maxLen {
        return Some(Integrity);
      }
      if EndOfStream(e) {
        var got := hash(seen);
        if got != want {
          return Some(Integrity);
        }
      }
      err := e;
    }
  }
}
