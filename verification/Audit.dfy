/** Signed tree heads, witness cosignatures and the full audit.
    A signature verifies exactly when its key signed its message. */
module Audit {
  import opened Options
  import opened Merkle
  import opened Inclusion
  import opened Recency

  type PublicKey = nat

  datatype TreeHead = TreeHead(size: nat, rootHex: Hex, issuedAtUnix: nat, logId: string)

  datatype HeadSignature = SignedHead(signer: PublicKey, head: TreeHead) | ForgedHead(bytes: nat)

  datatype SignedTreeHead = SignedTreeHead(head: TreeHead, loggerPk: PublicKey, signature: HeadSignature)

  /** A witness signs the logger's signature. */
  datatype Cosignature = SignedCosig(signer: PublicKey, over: HeadSignature) | ForgedCosig(bytes: nat)

  datatype WitnessCosignature = WitnessCosignature(witnessPk: PublicKey, signature: Cosignature)

  datatype WitnessKeyset = WitnessKeyset(witnesses: seq<PublicKey>, threshold: nat)

  datatype AuditError =
    | StoredSignatureInvalid | UnexpectedLogId | SizeMismatch | InclusionPathInvalid
    | InsufficientWitnesses(got: nat, needed: nat)

  datatype AuditResult = Passed | Refused(error: AuditError)

  function Sign(head: TreeHead, key: PublicKey): SignedTreeHead {
    SignedTreeHead(head, key, SignedHead(key, head))
  }

  function Cosign(sth: SignedTreeHead, w: PublicKey): WitnessCosignature {
    WitnessCosignature(w, SignedCosig(w, sth.signature))
  }

  predicate HeadVerifies(sth: SignedTreeHead) {
    sth.signature == SignedHead(sth.loggerPk, sth.head)
  }

  predicate CosigVerifies(c: WitnessCosignature, sth: SignedTreeHead) {
    c.signature == SignedCosig(c.witnessPk, sth.signature)
  }

  /** The trusted witnesses with a valid cosignature in the list. */
  ghost function Endorsers(keyset: WitnessKeyset, sth: SignedTreeHead, cosigs: seq<WitnessCosignature>): set<PublicKey> {
    set k | 0 <= k < |cosigs| && cosigs[k].witnessPk in keyset.witnesses && CosigVerifies(cosigs[k], sth) :: cosigs[k].witnessPk
  }

  /** Counts each trusted witness once, however often it appears. */
  method CountValid(keyset: WitnessKeyset, sth: SignedTreeHead, cosigs: seq<WitnessCosignature>) returns (n: nat)
    ensures n == |Endorsers(keyset, sth, cosigs)|
  {
    var counted: set<PublicKey> := {};
    for k := 0 to |cosigs|
      invariant counted == Endorsers(keyset, sth, cosigs[..k])
    {
      var c := cosigs[k];
      EndorsersStep(keyset, sth, cosigs, k);
      if c.witnessPk in keyset.witnesses && CosigVerifies(c, sth) {
        counted := counted + {c.witnessPk};
      }
    }
    assert cosigs[..|cosigs|] == cosigs;
    n := |counted|;
  }

  lemma EndorsersStep(keyset: WitnessKeyset, sth: SignedTreeHead, cosigs: seq<WitnessCosignature>, k: nat)
    requires k < |cosigs|
    ensures Endorsers(keyset, sth, cosigs[..k + 1])
            == Endorsers(keyset, sth, cosigs[..k])
               + if cosigs[k].witnessPk in keyset.witnesses && CosigVerifies(cosigs[k], sth) then {cosigs[k].witnessPk} else {}
  {
    var a, b := cosigs[..k + 1], cosigs[..k];
    assert a == b + [cosigs[k]];
    forall w | w in Endorsers(keyset, sth, b) ensures w in Endorsers(keyset, sth, a) {
      var j :| 0 <= j < |b| && b[j].witnessPk == w && w in keyset.witnesses && CosigVerifies(b[j], sth);
      assert a[j] == b[j];
    }
    assert a[k] == cosigs[k];
  }

  /** The checks in their order: signature, log id, size, path, witnesses. */
  ghost function AuditVerdict(sth: SignedTreeHead, p: InclusionProof, expected: Entry,
                              cosigs: Option<(WitnessKeyset, seq<WitnessCosignature>)>, logId: Option<string>): AuditResult {
    if !HeadVerifies(sth) then Refused(StoredSignatureInvalid)
    else if logId.Some? && sth.head.logId != logId.value then Refused(UnexpectedLogId)
    else if p.treeSize != sth.head.size then Refused(SizeMismatch)
    else if sth.head.rootHex.Malformed? || !Verifies(p, sth.head.rootHex.hash, expected) then Refused(InclusionPathInvalid)
    else if cosigs.None? then Passed
    else
      var got := |Endorsers(cosigs.value.0, sth, cosigs.value.1)|;
      if got < cosigs.value.0.threshold then Refused(InsufficientWitnesses(got, cosigs.value.0.threshold)) else Passed
  }

  method VerifyInclusionAgainstHead(sth: SignedTreeHead, p: InclusionProof, expected: Entry,
                                    cosigs: Option<(WitnessKeyset, seq<WitnessCosignature>)>, logId: Option<string>)
    returns (r: AuditResult)
    ensures r == AuditVerdict(sth, p, expected, cosigs, logId)
  {
    if !HeadVerifies(sth) {
      return Refused(StoredSignatureInvalid);
    }
    if logId.Some? && sth.head.logId != logId.value {
      return Refused(UnexpectedLogId);
    }
    if p.treeSize != sth.head.size {
      return Refused(SizeMismatch);
    }
    if sth.head.rootHex.Malformed? {
      return Refused(InclusionPathInvalid);
    }
    var ok := Verify(p, sth.head.rootHex.hash, expected);
    if !ok {
      return Refused(InclusionPathInvalid);
    }
    if cosigs.Some? {
      var keyset := cosigs.value.0;
      var got := CountValid(keyset, sth, cosigs.value.1);
      if got < keyset.threshold {
        return Refused(InsufficientWitnesses(got, keyset.threshold));
      }
    }
    r := Passed;
  }

  /** If the auditor accepts anything at all against a head over a numbered log, the entry is the log's
      entry at the position it names, the proof is for the head's size, the logger signed that head, the log id is the
      pinned one, and enough distinct trusted witnesses signed the logger's signature. */
  lemma AuditIsSound(sth: SignedTreeHead, p: InclusionProof, expected: Entry,
                     cosigs: Option<(WitnessKeyset, seq<WitnessCosignature>)>, logId: Option<string>, log: seq<Entry>)
    requires SeqIndexed(log) && sth.head.rootHex == Encoded(MerkleRoot(log))
    requires AuditVerdict(sth, p, expected, cosigs, logId) == Passed
    ensures expected.seqNo < |log| && log[expected.seqNo] == expected && p.treeSize == sth.head.size
    ensures sth == Sign(sth.head, sth.loggerPk) && (logId.Some? ==> sth.head.logId == logId.value)
    ensures cosigs.Some? ==>
              exists ws: set<PublicKey> ::
                && |ws| >= cosigs.value.0.threshold
                && forall w :: w in ws ==>
                     && w in cosigs.value.0.witnesses
                     && WitnessCosignature(w, SignedCosig(w, SignedHead(sth.loggerPk, sth.head))) in cosigs.value.1
  {
    AcceptedEntryIsInLog(p, log, expected);
    if cosigs.Some? {
      var ws := Endorsers(cosigs.value.0, sth, cosigs.value.1);
      forall w | w in ws
        ensures w in cosigs.value.0.witnesses
        ensures WitnessCosignature(w, SignedCosig(w, SignedHead(sth.loggerPk, sth.head))) in cosigs.value.1
      {
        var k :| 0 <= k < |cosigs.value.1| && cosigs.value.1[k].witnessPk == w
                 && w in cosigs.value.0.witnesses && CosigVerifies(cosigs.value.1[k], sth);
        assert cosigs.value.1[k] == WitnessCosignature(w, SignedCosig(w, sth.signature));
      }
    }
  }

  /** And the auditor accepts every honest proof against an honestly signed head of the same log, with the pinned
      log id, when enough trusted witnesses cosigned that head, whatever else is in the list. */
  lemma AuditIsComplete(log: seq<Entry>, seqNo: nat, issuedAt: nat, logId: string, key: PublicKey,
                        keyset: WitnessKeyset, cosigs: seq<WitnessCosignature>, ws: set<PublicKey>)
    requires seqNo < |log| && keyset.threshold <= |ws|
    requires var sth := Sign(TreeHead(|log|, Encoded(MerkleRoot(log)), issuedAt, logId), key);
             forall w :: w in ws ==> w in keyset.witnesses && Cosign(sth, w) in cosigs
    ensures var sth := Sign(TreeHead(|log|, Encoded(MerkleRoot(log)), issuedAt, logId), key);
            && AuditVerdict(sth, Built(log, seqNo).value, log[seqNo], None, Some(logId)) == Passed
            && AuditVerdict(sth, Built(log, seqNo).value, log[seqNo], Some((keyset, cosigs)), Some(logId)) == Passed
  {
    BuiltProofVerifies(log, seqNo);
    hide Verifies, Built, MerkleRoot;
    var sth := Sign(TreeHead(|log|, Encoded(MerkleRoot(log)), issuedAt, logId), key);
    forall w | w in ws ensures w in Endorsers(keyset, sth, cosigs) {
      assert Cosign(sth, w) in cosigs;
      var k :| 0 <= k < |cosigs| && cosigs[k] == Cosign(sth, w);
      assert CosigVerifies(cosigs[k], sth);
    }
    SubsetSize(ws, Endorsers(keyset, sth, cosigs));
  }

  /** One fault at a time in an otherwise honest audit is refused under its own name: a signature that is not the
      logger's, another log id, a head of another size, an entry that is not the one proved, too few witnesses. */
  lemma OneFaultIsNamed(log: seq<Entry>, seqNo: nat, head: TreeHead, key: PublicKey, forged: SignedTreeHead, other: TreeHead,
                        pinned: string, e: Entry, keyset: WitnessKeyset, cosigs: seq<WitnessCosignature>)
    requires seqNo < |log| && head.size == |log| && head.rootHex == Encoded(MerkleRoot(log))
    requires forged.head == head && forged != Sign(head, forged.loggerPk)
    requires other.size != |log| && other.logId == head.logId && pinned != head.logId && e != log[seqNo]
    requires |Endorsers(keyset, Sign(head, key), cosigs)| < keyset.threshold
    ensures var p, sth, id := Built(log, seqNo).value, Sign(head, key), Some(head.logId);
            && AuditVerdict(forged, p, log[seqNo], None, id) == Refused(StoredSignatureInvalid)
            && AuditVerdict(sth, p, log[seqNo], None, Some(pinned)) == Refused(UnexpectedLogId)
            && AuditVerdict(Sign(other, key), p, log[seqNo], None, id) == Refused(SizeMismatch)
            && AuditVerdict(sth, p, e, None, id) == Refused(InclusionPathInvalid)
            && AuditVerdict(sth, p, log[seqNo], Some((keyset, cosigs)), id)
               == Refused(InsufficientWitnesses(|Endorsers(keyset, sth, cosigs)|, keyset.threshold))
            && AuditVerdict(sth, p, log[seqNo], None, id) == Passed
  {
    BuiltProofVerifies(log, seqNo);
    hide Siblings, Directions, Climb, MerkleRoot, Endorsers;
  }
}
