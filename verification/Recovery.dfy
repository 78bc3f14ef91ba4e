/** From a done row back to the plaintext: the backup protocol and the decoder together. */
module Recovery {
  import opened Content
  import L = LedgerStore
  import O = OutboxStore
  import P = Pipeline
  import Protocol
  import R = Restore

  /** The decoder's side of a configuration. */
  function EnvOf(c: Protocol.Config, decode: R.Decoder): R.Env {
    R.Env(c.hash, c.compress, decode, c.cap)
  }

  /** What restore makes of the copy `x` read without faults. */
  predicate RestoresTo(env: R.Env, id: Id, x: Bytes, p: Bytes) {
    var f := R.Fetched(x, false);
    R.DecodeOutcome(env, id, f, f, R.SMOOTH) == R.Ok && R.Restored(env, id, f, f, R.SMOOTH) == p
  }

  /** Any copy any sink ever committed restores to the plaintext of its key. */
  lemma EveryCommitRestores(c: Protocol.Config, decode: R.Decoder, trace: seq<Protocol.World>, acts: seq<Protocol.Action>, k: nat,
                            x: (Id, string, Bytes), p: Bytes)
    requires CollisionFree(c.hash) && P.DistinctNames(c.targets) && c.cap > 0 && R.CodecContract(EnvOf(c, decode))
    requires Protocol.Run(c, trace, acts) && k < |trace| && x in trace[k].committed && c.hash(p) == x.0
    ensures RestoresTo(EnvOf(c, decode), x.0, x.2, p)
  {
    hide Protocol.Run, Protocol.WorkerOK, Protocol.LedgerBacked, R.DecodeOutcome, R.Restored, R.CodecContract;
    Protocol.RunKeeps(c, trace, acts, k);
    assert Protocol.TrueCopy(c, x);
    var i, q :| 0 <= i < |c.targets| && c.targets[i].name == x.1 && Verified(c.hash, x.0, c.cap, q)
             && x.2 == Encode(c.compress, c.targets[i].codec, q);
    R.BackupRestores(EnvOf(c, decode), c.targets[i].codec, p, x.0, x.2, false);
  }

  /** At every point of every run, for every done row, each configured target alone suffices
  for recovery: it has a committed copy, and whichever copy of the object it serves restores
  to the one plaintext that hashes to the row's key. */
  lemma DoneIsRecoverable(c: Protocol.Config, decode: R.Decoder, trace: seq<Protocol.World>, acts: seq<Protocol.Action>, k: nat, r: O.RowId)
    returns (p: Bytes)
    requires CollisionFree(c.hash) && P.DistinctNames(c.targets) && c.targets != [] && c.cap > 0 && R.CodecContract(EnvOf(c, decode))
    requires Protocol.Run(c, trace, acts) && k < |trace|
    requires r in trace[k].rows && trace[k].rows[r].status.IsDone?
    ensures var w := trace[k];
            var id := w.rows[r].externalID;
            && c.hash(p) == id
            && forall i :: 0 <= i < |c.targets| ==>
                 && Protocol.Holds(c, w, id, c.targets[i], p)
                 && forall x :: (id, c.targets[i].name, x) in w.committed ==> RestoresTo(EnvOf(c, decode), id, x, p)
  {
    hide Protocol.Run, RestoresTo, R.CodecContract, L.IsStored;
    Protocol.DoneMeansBackedUp(c, trace, acts, k, r);
    var w := trace[k];
    var id := w.rows[r].externalID;
    p :| Verified(c.hash, id, c.cap, p) && id in w.ledger.objects && w.ledger.objects[id] == |p|
      && forall i :: 0 <= i < |c.targets| ==> L.IsStored(w.ledger, id, c.targets[i].name) && Protocol.Holds(c, w, id, c.targets[i], p);
    forall i, x | 0 <= i < |c.targets| && (id, c.targets[i].name, x) in w.committed ensures RestoresTo(EnvOf(c, decode), id, x, p) {
      EveryCommitRestores(c, decode, trace, acts, k, (id, c.targets[i].name, x), p);
    }
  }
}
