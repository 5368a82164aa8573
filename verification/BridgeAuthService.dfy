/** The authenticator as an object: its clients and its replay cache change on every accepted call. */
module BridgeAuth {
  import opened Common
  import opened Text
  import opened ReplayCache

  datatype Status = Pending | Approved | Denied

  /** Whether a certificate's key verifies a signature over a message; false on malformed input. */
  type CertVerifier = (string, Message, string) -> bool

  datatype BridgeClient = BridgeClient(uniqueId: string, certPem: string, status: Status, lastSeen: Option<int>)

  function IsApproved(uniqueId: string): BridgeClient -> bool {
    (c: BridgeClient) => Fold(c.uniqueId) == Fold(uniqueId) && c.status == Approved
  }

  predicate Blank(s: string) {
    forall i | 0 <= i < |s| :: IsSpace(s[i])
  }

  /** An approved client is on record under this id and its key verifies the signature. */
  predicate IsGenuine(clients: seq<BridgeClient>, verifies: CertVerifier, m: Message, signature: string) {
    && !Blank(m.uniqueId) && !Blank(signature)
    && var client := FirstIndex(clients, IsApproved(m.uniqueId));
       client.Some? && verifies(clients[client.value].certPem, m, signature)
  }

  /** Client `i` is the first on record that goes by this id, in any case, and that the user has approved. */
  predicate SpeaksFor(clients: seq<BridgeClient>, i: nat, uniqueId: string) {
    && i < |clients| && clients[i].status == Approved && Fold(clients[i].uniqueId) == Fold(uniqueId)
    && forall j | 0 <= j < i :: clients[j].status == Approved ==> Fold(clients[j].uniqueId) != Fold(uniqueId)
  }

  /**
   * A signature is genuine if and only if the first approved client of that id made it. A client
   * that is pending or denied, or known under another id, cannot.
   */
  lemma GenuineIff(clients: seq<BridgeClient>, verifies: CertVerifier, m: Message, signature: string)
    ensures IsGenuine(clients, verifies, m, signature) <==>
      && (exists k | 0 <= k < |m.uniqueId| :: !IsSpace(m.uniqueId[k]))
      && (exists k | 0 <= k < |signature| :: !IsSpace(signature[k]))
      && exists i: nat | i < |clients| ::
           SpeaksFor(clients, i, m.uniqueId) && verifies(clients[i].certPem, m, signature)
  {
    var client := FirstIndex(clients, IsApproved(m.uniqueId));
    if client.Some? {
      assert SpeaksFor(clients, client.value, m.uniqueId);
    }
    forall i: nat | i < |clients| && SpeaksFor(clients, i, m.uniqueId) ensures client == Some(i) {
      FirstIndexUnique(clients, IsApproved(m.uniqueId), i);
    }
  }

  class BridgeAuthService {
    var clients: seq<BridgeClient>
    var seenSignatures: Seen
    const verifies: CertVerifier

    constructor (clients: seq<BridgeClient>, verifies: CertVerifier)
      ensures this.clients == clients && this.verifies == verifies && seenSignatures == map[]
    {
      this.clients, this.verifies, seenSignatures := clients, verifies, map[];
    }

    /**
     * A call is accepted if and only if its timestamp is within a minute, the first approved client
     * of its id signed it, and the signature was not accepted in the last two minutes. Only then is
     * the signature remembered, and that client alone is stamped as seen.
     */
    method TryVerify(uniqueId: string, tsMillis: int, signature: string, command: string, now: int) returns (ok: bool)
      modifies this
      ensures var m := Message(uniqueId, tsMillis, command);
        var a := Attempt(now, tsMillis, signature, old(IsGenuine(clients, verifies, m, signature)));
        Outcome(seenSignatures, ok) == Decide(old(seenSignatures), a, CLOCK_SKEW_MS, CLOCK_SKEW_MS * 2)
      ensures ok <==>
        && -60_000 <= now - tsMillis <= 60_000
        && !Blank(uniqueId) && !Blank(signature)
        && (exists i: nat | i < |old(clients)| :: SpeaksFor(old(clients), i, uniqueId)
              && verifies(old(clients)[i].certPem, Message(uniqueId, tsMillis, command), signature))
        && !(signature in old(seenSignatures) && now - old(seenSignatures)[signature] <= 120_000)
      ensures ok ==> exists c | c in old(clients) ::
        c.status == Approved && Fold(c.uniqueId) == Fold(uniqueId)
        && verifies(c.certPem, Message(uniqueId, tsMillis, command), signature)
      ensures (forall c | c in old(clients) && Fold(c.uniqueId) == Fold(uniqueId) :: c.status != Approved) ==>
        !ok && seenSignatures == old(seenSignatures)
      ensures ok ==> signature in seenSignatures && seenSignatures[signature] == now
      ensures !ok ==> clients == old(clients)
      ensures ok ==> exists i: nat | i < |old(clients)| ::
        && SpeaksFor(old(clients), i, uniqueId)
        && clients == old(clients)[i := old(clients)[i].(lastSeen := Some(now))]
    {
      GenuineIff(clients, verifies, Message(uniqueId, tsMillis, command), signature);
      if Blank(uniqueId) || Blank(signature) {
        return false;
      }
      if (if now >= tsMillis then now - tsMillis else tsMillis - now) > CLOCK_SKEW_MS {
        return false;
      }
      var client := FirstIndex(clients, IsApproved(uniqueId));
      if client.None? {
        return false;
      }
      if !verifies(clients[client.value].certPem, Message(uniqueId, tsMillis, command), signature) {
        return false;
      }
      PruneSeen(now);
      if signature in seenSignatures {
        return false;
      }
      seenSignatures := seenSignatures[signature := now];
      clients := clients[client.value := clients[client.value].(lastSeen := Some(now))];
      ok := true;
    }

    method PruneSeen(now: int)
      modifies `seenSignatures
      ensures seenSignatures == Prune(old(seenSignatures), now, CLOCK_SKEW_MS * 2)
    {
      if |seenSignatures| == 0 {
        return;
      }
      var stale := set k | k in seenSignatures && now - seenSignatures[k] > CLOCK_SKEW_MS * 2;
      while stale != {}
        invariant forall k | k in stale :: k in seenSignatures && now - seenSignatures[k] > CLOCK_SKEW_MS * 2
        invariant forall k | k in old(seenSignatures) && k !in seenSignatures ::
          now - old(seenSignatures)[k] > CLOCK_SKEW_MS * 2
        invariant forall k | k in seenSignatures ::
          k in old(seenSignatures) && seenSignatures[k] == old(seenSignatures)[k]
        invariant forall k | k in seenSignatures && now - seenSignatures[k] > CLOCK_SKEW_MS * 2 :: k in stale
        decreases |stale|
      {
        var k :| k in stale;
        stale := stale - {k};
        seenSignatures := map j | j in seenSignatures && j != k :: seenSignatures[j];
      }
    }
  }
}
