/** Who can send a transaction from a storage account: first only its program, which approves
    nothing but opting in while handing the account to the application; after that nobody
    outside the application's own calls. So no funds leave such an account by a payment. */
module StorageSig {
  import opened Teal
  import opened Transactions
  import opened Template
  import opened TokenBridge

  /** The template's program. Its index and owner only make the address unique. */
  predicate Approves(app: App, t: Txn) {
    && t.kind == ApplicationCall && t.onCompletion == OptIn && t.appId == app.id && t.rekeyTo == app.address
    && t.fee == 0 && t.closeTo == ZERO_ADDRESS && t.assetCloseTo == ZERO_ADDRESS
  }

  // ---------- signing and rekeying ----------

  /** The accounts that have been rekeyed, and to what. */
  type Signers = map<bytes, bytes>

  function SignerOf(signers: Signers, acct: bytes): bytes {
    if acct in signers then signers[acct] else acct
  }

  function Rekeyed(signers: Signers, t: Txn): Signers {
    if t.rekeyTo == ZERO_ADDRESS then signers else signers[t.sender := t.rekeyTo]
  }

  /** The platform's rule. The application's address has no key, so it signs no outer
      transaction; a storage account's address signs what its program approves. */
  ghost predicate MaySend(env: Env, signers: Signers, t: Txn) {
    var s := SignerOf(signers, t.sender);
    s != env.app.address && forall i: nat, e: bytes | s == env.at(i, e) :: Approves(env.app, t)
  }

  function SignersAfter(signers: Signers, group: seq<Txn>, k: nat): Signers
    requires k <= |group|
  {
    if k == 0 then signers else Rekeyed(SignersAfter(signers, group, k - 1), group[k - 1])
  }

  ghost predicate SignedGroup(env: Env, signers: Signers, group: seq<Txn>) {
    forall k | 0 <= k < |group| :: MaySend(env, SignersAfter(signers, group, k), group[k])
  }

  /** A storage account signs for itself or is the application's. */
  ghost predicate Held(env: Env, signers: Signers) {
    forall i: nat, e: bytes :: SignerOf(signers, env.at(i, e)) == env.at(i, e) || SignerOf(signers, env.at(i, e)) == env.app.address
  }

  /** No funds of storage accounts are spent. */
  ghost predicate SpendsOwn(env: Env, t: Txn) {
    t.kind == Payment || t.kind == AssetTransfer ==> forall i: nat, e: bytes :: t.sender != env.at(i, e)
  }

  lemma SendKeeps(env: Env, signers: Signers, t: Txn)
    requires Held(env, signers) && MaySend(env, signers, t)
    ensures SpendsOwn(env, t) && Held(env, Rekeyed(signers, t))
  {
    forall i: nat, e: bytes | t.sender == env.at(i, e) ensures Approves(env.app, t) {
      assert SignerOf(signers, env.at(i, e)) == env.at(i, e);
    }
    forall i: nat, e: bytes
      ensures var s := SignerOf(Rekeyed(signers, t), env.at(i, e)); s == env.at(i, e) || s == env.app.address
    {
      assert SignerOf(signers, env.at(i, e)) == env.at(i, e) || SignerOf(signers, env.at(i, e)) == env.app.address;
    }
  }

  lemma {:induction false} GroupKeeps(env: Env, signers: Signers, group: seq<Txn>, k: nat)
    requires Held(env, signers) && SignedGroup(env, signers, group) && k <= |group|
    ensures Held(env, SignersAfter(signers, group, k)) && forall j | 0 <= j < k :: SpendsOwn(env, group[j])
  {
    hide Held, MaySend, SpendsOwn, Rekeyed;
    if k > 0 {
      GroupKeeps(env, signers, group, k - 1);
      SendKeeps(env, SignersAfter(signers, group, k - 1), group[k - 1]);
    }
  }

  // ---------- runs ----------

  /** Who signs for whom after a run; rejected groups rekey nothing. */
  function RunSigners(env: Env, ledger: Ledger, signers: Signers, blocks: seq<Block>): Signers {
    if blocks == [] then signers
    else
      var n := |blocks| - 1;
      var before := RunSigners(env, ledger, signers, blocks[..n]);
      if Commits(env, Run(env, ledger, blocks[..n]).0, blocks[n]) then SignersAfter(before, blocks[n].group, |blocks[n].group|) else before
  }

  /** Committed groups were signed. */
  ghost predicate SignedRun(env: Env, ledger: Ledger, signers: Signers, blocks: seq<Block>) {
    forall i: nat | Committed(env, ledger, blocks, i) :: SignedGroup(env, RunSigners(env, ledger, signers, blocks[..i]), blocks[i].group)
  }

  lemma SignedPrefix(env: Env, ledger: Ledger, signers: Signers, blocks: seq<Block>, n: nat)
    requires SignedRun(env, ledger, signers, blocks) && n <= |blocks|
    ensures SignedRun(env, ledger, signers, blocks[..n])
  {
    hide SignedGroup, Commits, Run, RunSigners;
    forall i: nat | Committed(env, ledger, blocks[..n], i)
      ensures i < n && SignedGroup(env, RunSigners(env, ledger, signers, blocks[..n][..i]), blocks[..n][i].group)
    {
      assert blocks[..n][..i] == blocks[..i];
      assert Committed(env, ledger, blocks, i);
    }
  }

  lemma {:induction false} RunHeld(env: Env, ledger: Ledger, signers: Signers, blocks: seq<Block>)
    requires Held(env, signers) && SignedRun(env, ledger, signers, blocks)
    ensures Held(env, RunSigners(env, ledger, signers, blocks))
  {
    hide Held, SignedGroup, Commits, Run, SignedRun;
    if blocks != [] {
      var n := |blocks| - 1;
      SignedPrefix(env, ledger, signers, blocks, n);
      RunHeld(env, ledger, signers, blocks[..n]);
      if Commits(env, Run(env, ledger, blocks[..n]).0, blocks[n]) {
        LastSigned(env, ledger, signers, blocks, n);
        GroupKeeps(env, RunSigners(env, ledger, signers, blocks[..n]), blocks[n].group, |blocks[n].group|);
      }
    }
  }

  lemma LastSigned(env: Env, ledger: Ledger, signers: Signers, blocks: seq<Block>, n: nat)
    requires SignedRun(env, ledger, signers, blocks) && n < |blocks|
    requires Commits(env, Run(env, ledger, blocks[..n]).0, blocks[n])
    ensures SignedGroup(env, RunSigners(env, ledger, signers, blocks[..n]), blocks[n].group)
  {
    hide SignedGroup, Commits, Run, RunSigners;
    assert Committed(env, ledger, blocks, n);
  }

  /** Over every run in which the platform checks signatures, no payment or asset transfer of a
      committed group spends from a storage account. */
  lemma StorageIsSafe(env: Env, ledger: Ledger, signers: Signers, blocks: seq<Block>, i: nat, t: nat)
    requires Held(env, signers) && SignedRun(env, ledger, signers, blocks)
    requires Committed(env, ledger, blocks, i) && t < |blocks[i].group|
    ensures SpendsOwn(env, blocks[i].group[t])
  {
    hide Held, SignedGroup, Commits, Run, SpendsOwn, RunSigners;
    SignedPrefix(env, ledger, signers, blocks, i);
    RunHeld(env, ledger, signers, blocks[..i]);
    GroupKeeps(env, RunSigners(env, ledger, signers, blocks[..i]), blocks[i].group, |blocks[i].group|);
  }
}
