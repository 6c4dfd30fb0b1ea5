/**
 * Call sequences against a fresh storage, showing what a caller can conclude
 * from the contracts alone: the client and authorization-code life cycle,
 * token save and refresh, and the expiry entry a failed commit leaves behind.
 */
module Scenarios {
  import opened Records
  import opened Expiry
  import opened MysqlStorage
  import StorageFacts

  const T0 := 1000

  /** Create a client, save a code for 600 seconds, load it one second and 700 seconds later, remove it twice. */
  method AuthorizeLifecycle() {
    var s := new Storage();
    var c := s.CreateClientWithInformation("c1", "s1", "http://x/cb", "");
    var err := s.CreateClient(c, false);
    assert err.None?;
    assert s.GetClient("c1", {}) == Success(c);
    err := s.CreateClient(c, false);
    assert err == Some(Backend(DuplicateKey));

    var code1 := AuthorizeData(c, "code1", 600, "", "http://x/cb", "", T0, "");
    err := s.SaveAuthorize(code1, false, false);
    assert err.None?;
    assert s.expires == [ExpiryEntry(1, "code1", T0 + 600)];

    StorageFacts.SavedAuthorizeLoads(s, code1, T0 + 1);
    assert s.LoadAuthorize("code1", T0 + 1, {}) == Success(code1);
    assert s.LoadAuthorize("code1", T0 + 700, {}) == Failure(Expired(T0 + 600));
    assert "code1" in s.authorize;

    err := s.RemoveAuthorize("code1", false, false);
    assert err.None?;
    err := s.RemoveAuthorize("code1", false, false);
    assert err.None?;
    assert s.LoadAuthorize("code1", T0 + 1, {}) == Failure(NotFound);
  }

  /** A storage holding client c1 and no tokens. */
  method WithClient() returns (s: Storage, c: Client)
    ensures s.Valid() && fresh(s)
    ensures c.id == "c1" && s.clients == map["c1" := c]
    ensures s.access == map[] && s.refresh == map[] && s.expires == [] && s.nextId == 1
  {
    s := new Storage();
    c := Client("c1", "s1", "http://x/cb", "");
    var err := s.CreateClient(c, false);
  }

  /** Save a token with a refresh token, load it through the index, and try to reuse the refresh token. */
  method RefreshFlow() {
    var s, c := WithClient();
    var ok := TxFaults(false, false, false, false, false, false);

    var a1 := AccessData(Some(c), None, None, "a1", "r1", 3600, "", "http://x/cb", T0, "");
    assert s.ReachesCommit(a1, ok);
    var err := s.SaveAccess(a1, ok);
    assert err.None?;
    assert s.refresh == map["r1" := "a1"];
    assert s.LoadRefresh("r1", T0, {}, 3) == s.LoadAccess("a1", T0, {}, 3);
    assert s.LoadAccess("a1", T0, {}, 3).Success?;

    // a second token may not claim the same refresh token
    var a2 := AccessData(Some(c), None, Some(a1), "a2", "r1", 3600, "", "http://x/cb", T0 + 10, "");
    assert s.RefreshRejected(a2, ok);
    err := s.SaveAccess(a2, ok);
    assert err == Some(Backend(DuplicateKey));
    assert "a2" !in s.access;
  }

  /** A storage holding client c1, token a1 (refresh token r1) and token a2 that rotated a1 out. */
  method WithRotation() returns (s: Storage)
    ensures s.Valid() && fresh(s)
    ensures "c1" in s.clients && s.refresh == map["r1" := "a1", "r2" := "a2"]
    ensures "a1" in s.access && "a2" in s.access
    ensures s.access["a1"].client == "c1" && s.access["a2"].client == "c1"
    ensures s.access["a2"].prevAccessToken == "a1"
  {
    var c;
    s, c := WithClient();
    var ok := TxFaults(false, false, false, false, false, false);
    var a1 := AccessData(Some(c), None, None, "a1", "r1", 3600, "", "http://x/cb", T0, "");
    assert s.ReachesCommit(a1, ok);
    var err := s.SaveAccess(a1, ok);
    var a2 := AccessData(Some(c), None, Some(a1), "a2", "r2", 3600, "", "http://x/cb", T0 + 10, "");
    assert s.ReachesCommit(a2, ok);
    err := s.SaveAccess(a2, ok);
  }

  /** Loading a2 with one link to follow brings a1's data along. */
  method RotationFlow() {
    var s := WithRotation();
    assert s.Resolvable("a1", {}) && s.Resolvable("a2", {});
    StorageFacts.RotationChain(s, "a2", "a1", T0, {}, 1);
    assert s.LoadAccess("a2", T0, {}, 1).value.accessData.value.accessToken == "a1";
  }

  /** After a1 is removed, a2 still loads, without its predecessor, and r1 dangles. */
  method RemovedPredecessorFlow() {
    var s := WithRotation();
    var err := s.RemoveAccess("a1", false, false);
    assert err.None?;
    assert "r1" in s.refresh;
    StorageFacts.RefreshOutlivesAccess(s, "r1", T0, 3);
    assert "a1" !in s.access && s.Resolvable("a2", {});
    StorageFacts.RotationChain(s, "a2", "a1", T0, {}, 1);
  }

  /**
   * Save a token with the empty string as its value, then an ordinary
   * first-generation token: the source's LoadAccess of the second one would
   * never return, while the bounded LoadAccess does.
   */
  method EmptyTokenFlow() {
    var s, c := WithClient();
    var ok := TxFaults(false, false, false, false, false, false);
    var empty := AccessData(Some(c), None, None, "", "", 3600, "", "http://x/cb", T0, "");
    assert s.ReachesCommit(empty, ok);
    var err := s.SaveAccess(empty, ok);
    var a1 := AccessData(Some(c), None, None, "a1", "", 3600, "", "http://x/cb", T0, "");
    assert s.ReachesCommit(a1, ok);
    err := s.SaveAccess(a1, ok);
    assert s.Resolvable("", {}) && s.Resolvable("a1", {});
    forall n: nat
      ensures !s.ChainWithin("a1", {}, n)
    {
      StorageFacts.EmptyTokenRowBlocksChainRoots(s, "a1", {}, n);
    }
    assert s.LoadAccess("a1", T0, {}, 5).Success?;
  }

  /** A missing client or a failed commit: nothing is committed, but a failed commit leaves its expiry entry. */
  method SaveAccessFailures() {
    var s, c := WithClient();
    var noClient := AccessData(None, None, None, "a1", "r1", 3600, "", "", T0, "");
    var err := s.SaveAccess(noClient, TxFaults(false, false, false, false, false, false));
    assert err == Some(InvalidArgument);
    assert s.refresh == map[] && s.access == map[] && s.expires == [];

    var a1 := noClient.(client := Some(c));
    var commitFails := TxFaults(false, false, false, false, false, true);
    assert s.ReachesCommit(a1, commitFails);
    err := s.SaveAccess(a1, commitFails);
    assert err == Some(Backend(StoreFailure));
    assert s.access == map[] && s.refresh == map[];
    assert s.expires == [ExpiryEntry(1, "a1", T0 + 3600)];
  }
}
