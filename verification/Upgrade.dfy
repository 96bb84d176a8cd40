/** The two halves of an upgrade on the client together: the download of internal/upgrade/receiver.go and the switch of
 internal/upgrade/apply.go. */
module Upgrade {
  import opened ByteStrings
  import opened UpgradeMessages
  import Receiver
  import Apply

  lemma InjectiveTellsApart(sha: Digest)
    requires LowerCaseDigests(sha) && Receiver.Injective(sha)
    ensures Apply.TellsApart(sha)
  {
    forall a: Bytes, b: Bytes | Lower(sha(a)) == Lower(sha(b))
      ensures a == b
    {
      assert Lower(sha(a)) == sha(a) && Lower(sha(b)) == sha(b);
    }
  }

  /** The helper finds the candidate the receiver handed over, next to the running binary. */
  predicate FoundByHelper(s: Receiver.State, d: Apply.Disk, u: Apply.Update, running: Bytes) {
    var pending := Receiver.HandedOver(s);
    && pending.Some? && u.expected == pending.value.expectedSHA256
    && s.candidate in s.files && Apply.Candidate in d.files && d.files[Apply.Candidate] == s.files[s.candidate]
    && Apply.TargetIs(d, running)
  }

  /**
   From genuine offers to the running binary: whatever chunks arrived and whatever failed on the way, after a verifying
   report the receiver hands over, the helper's own check of the candidate passes unless the file cannot be read, the
   target is the running binary or the offered artifact at every moment, and it is the artifact when the helper ends
   with a healthy client.
   */
  lemma OfferedArtifactIsInstalled(c: Receiver.Config, art: Receiver.Artifacts, s: Receiver.State,
      es: seq<Receiver.Event>, e: Receiver.Event, d: Apply.Disk, u: Apply.Update, f: Apply.Faults, running: Bytes)
    requires LowerCaseDigests(c.sha) && Receiver.Injective(c.sha) && Receiver.OfferAtHand(c, art, s)
    requires forall i :: 0 <= i < |es| ==> Receiver.GenuineOffers(c, art, es[i])
    requires Receiver.GenuineOffers(c, art, e) && (e.Offered? || e.Arrived?)
    requires e.Offered? ==> Receiver.AfterAccept(c, Receiver.Run(c, s, es), e.offer, e.acceptFaults).1.Verifying?
    requires e.Arrived? ==> Receiver.AfterChunk(c, Receiver.Run(c, s, es), e.chunk, e.chunkFaults).1.Verifying?
    requires var r := Receiver.After(c, Receiver.Run(c, s, es), e);
      Receiver.HandedOver(r).Some? ==> FoundByHelper(r, d, u, running)
    ensures var r := Receiver.After(c, Receiver.Run(c, s, es), e);
      && Receiver.HandedOver(r).Some?
      && var artifact := art(r.offer.value.taskID);
         var (t, ending) := Apply.Helped(d, u, f, c.sha);
         && (!f.digestUnreadable ==> Apply.Verified(d, u, f, c.sha))
         && Apply.AllWhole(t, running, artifact)
         && (ending.Healthy? ==> Apply.TargetIs(Apply.End(d, t), artifact))
  {
    Receiver.VerifyingMeansWhole(c, art, s, es, e);
    Receiver.OfferAtHandOverRuns(c, art, s, es);
    Receiver.OfferAtHandKept(c, art, Receiver.Run(c, s, es), e);
    var r := Receiver.After(c, Receiver.Run(c, s, es), e);
    HandedOverPassesTheCheck(c, art, r, d, u, f, running);
  }

  lemma HandedOverPassesTheCheck(c: Receiver.Config, art: Receiver.Artifacts, r: Receiver.State, d: Apply.Disk,
      u: Apply.Update, f: Apply.Faults, running: Bytes)
    requires LowerCaseDigests(c.sha) && Receiver.Injective(c.sha)
    requires Receiver.OfferAtHand(c, art, r) && r.offer.Some? && r.offset == r.offer.value.size
    requires r.candidate in r.files && r.files[r.candidate] == art(r.offer.value.taskID)
    requires Receiver.HandedOver(r).Some? ==> FoundByHelper(r, d, u, running)
    ensures Receiver.HandedOver(r).Some?
    ensures var artifact := art(r.offer.value.taskID);
      var (t, ending) := Apply.Helped(d, u, f, c.sha);
      && (!f.digestUnreadable ==> Apply.Verified(d, u, f, c.sha))
      && Apply.AllWhole(t, running, artifact)
      && (ending.Healthy? ==> Apply.TargetIs(Apply.End(d, t), artifact))
  {
    assert |r.candidate| > 0;
    var artifact := art(r.offer.value.taskID);
    assert Lower(c.sha(artifact)) == c.sha(artifact);
    InjectiveTellsApart(c.sha);
    Apply.HelperKeepsTargetWhole(d, u, f, c.sha, running, artifact);
  }
}
