/** Restricted keys: a contract lists keys with permissions, or ids of contracts whose keys it
    inherits. The inheritance may be cyclic. */
module RestrictedKeys {

  datatype TxnType =
    | COIN_TYPE | MINT_TYPE | FOUNDATION_TYPE | ITEM_MINT_TYPE | CONTRACT_TXN_TYPE | VOTE_TYPE | PROPOSAL_TYPE
    | SMART_CONTRACT_TYPE | SMART_CONTRACT_EXECUTE_TYPE | SELF_CURRENCY_EQUIV_TYPE | AUTHORIZED_CURRENCY_EQUIV_TYPE
    | EXPENSE_RATIO_TYPE | NFT_TYPE | UPDATE_CONTRACT_TYPE | VALIDATOR_REGISTRATION_TYPE | VALIDATOR_HEARTBEAT_TYPE
    | PROPOSAL_RESULT_TYPE | DELEGATED_VOTING_TYPE | REVOKE_TYPE | QUASH_TYPE | FAST_QUORUM_TYPE | COMPLIANCE_TYPE
    | SBT_BURN_TYPE | REQUIRED_VERSION | SMART_CONTRACT_INSTANTIATE_TYPE | UKNOWN_TYPE | ALLOWANCE_TYPE

  datatype Permissions = Permissions(updateContract: bool, transfer: bool, quash: bool, mint: bool, vote: bool, propose: bool,
                                     expenseRatio: bool, curEquiv: bool, revoke: bool, compliance: bool)

  /** An entry of a contract's list. */
  datatype Key = Key(publicKey: string, permissions: Permissions, timeDelay: nat, keyWeight: nat)

  datatype Contract = Contract(contractId: string, restrictedKeys: seq<Key>)

  /** check_restricted_required: the transaction does not need a restricted key. */
  predicate CheckRestrictedRequired(txnType: TxnType) {
    match txnType
    case COIN_TYPE | NFT_TYPE | VOTE_TYPE | PROPOSAL_TYPE | DELEGATED_VOTING_TYPE | CONTRACT_TXN_TYPE => true
    case SMART_CONTRACT_TYPE | SMART_CONTRACT_INSTANTIATE_TYPE | SMART_CONTRACT_EXECUTE_TYPE => true
    case SBT_BURN_TYPE | ALLOWANCE_TYPE => true
    case _ => false
  }

  /** check_type: which permission a transaction needs. */
  predicate CheckType(key: Key, txnType: TxnType) {
    var p := key.permissions;
    match txnType
    case UPDATE_CONTRACT_TYPE | FOUNDATION_TYPE => p.updateContract
    case COIN_TYPE | NFT_TYPE | ALLOWANCE_TYPE => p.transfer
    case QUASH_TYPE => p.quash
    case MINT_TYPE | ITEM_MINT_TYPE => p.mint
    case VOTE_TYPE => p.vote
    case PROPOSAL_TYPE => p.propose
    case EXPENSE_RATIO_TYPE => p.expenseRatio
    case SELF_CURRENCY_EQUIV_TYPE | AUTHORIZED_CURRENCY_EQUIV_TYPE => p.curEquiv
    case REVOKE_TYPE => p.revoke
    case COMPLIANCE_TYPE => p.compliance
    case _ => true
  }

  /** A '$', three to twenty capital letters, a '+' and four digits. */
  predicate IsInheritedId(s: string) {
    && 9 <= |s| <= 26 && s[0] == '$' && s[|s| - 5] == '+'
    && (forall i :: 1 <= i < |s| - 5 ==> 'A' <= s[i] <= 'Z')
    && (forall i :: |s| - 4 <= i < |s| ==> '0' <= s[i] <= '9')
  }

  /** That is what the pattern ^\\$[A-Z]{3,20}\\+\\d{4}$ matches. */
  lemma InheritedIdMatches(s: string)
    ensures IsInheritedId(s) <==> exists letters, digits :: s == "$" + letters + "+" + digits && IsName(letters) && IsNumber(digits)
  {
    if IsInheritedId(s) {
      var letters, digits := s[1..|s| - 5], s[|s| - 4..];
      assert s == "$" + letters + "+" + digits;
      assert IsName(letters) && IsNumber(digits);
    }
    if letters, digits :| s == "$" + letters + "+" + digits && IsName(letters) && IsNumber(digits) {
      NameAndNumber(s, letters, digits);
    }
  }

  lemma NameAndNumber(s: string, letters: string, digits: string)
    requires s == "$" + letters + "+" + digits && IsName(letters) && IsNumber(digits)
    ensures IsInheritedId(s)
  {
    var n := |letters|;
    assert |s| == n + 6 && s[0] == '$' && s[n + 1] == '+';
    forall i | 1 <= i < |s| - 5 ensures 'A' <= s[i] <= 'Z' {
      assert s[i] == letters[i - 1];
      assert letters[i - 1] in letters;
    }
    forall i | |s| - 4 <= i < |s| ensures '0' <= s[i] <= '9' {
      assert s[i] == digits[i - n - 2];
      assert digits[i - n - 2] in digits;
    }
  }

  predicate IsName(s: string) { 3 <= |s| <= 20 && forall c :: c in s ==> 'A' <= c <= 'Z' }

  predicate IsNumber(s: string) { |s| == 4 && forall c :: c in s ==> '0' <= c <= '9' }

  /** get_contract: a missing contract reads as an empty one. */
  function GetContract(store: map<string, Contract>, id: string): Contract {
    if id in store then store[id] else Contract("", [])
  }

  /** Every contract is stored under its id, which is not empty. */
  ghost predicate WellStored(store: map<string, Contract>) {
    forall id :: id in store ==> store[id].contractId == id && id != ""
  }

  /** The contract is not a different version of a stored one. */
  predicate Current(store: map<string, Contract>, c: Contract) {
    c.contractId in store.Keys + {""} ==> c == GetContract(store, c.contractId)
  }

  // ---- what the search is for ---------------------------------------------------------------

  /** The contract itself lists the key with permission for the transaction. */
  predicate Grants(c: Contract, publicKey: string, txnType: TxnType, key: Key) {
    key in c.restrictedKeys && !IsInheritedId(key.publicKey) && key.publicKey == publicKey && CheckType(key, txnType)
  }

  predicate Inherits(store: map<string, Contract>, c: Contract, d: Contract) {
    exists key :: key in c.restrictedKeys && IsInheritedId(key.publicKey) && d == GetContract(store, key.publicKey)
  }

  /** A chain of inheriting contracts. */
  ghost predicate Chain(store: map<string, Contract>, p: seq<Contract>) {
    |p| > 0 && forall i :: 0 < i < |p| ==> Inherits(store, p[i - 1], p[i])
  }

  ghost predicate Reaches(store: map<string, Contract>, c: Contract, d: Contract) {
    exists p :: Chain(store, p) && p[0] == c && p[|p| - 1] == d
  }

  /** Some contract on an inheritance chain lists the key with permission. */
  ghost predicate GrantedBy(store: map<string, Contract>, c: Contract, publicKey: string, txnType: TxnType, key: Key) {
    exists d :: Reaches(store, c, d) && Grants(d, publicKey, txnType, key)
  }

  ghost predicate Authorized(store: map<string, Contract>, c: Contract, publicKey: string, txnType: TxnType) {
    exists key :: GrantedBy(store, c, publicKey, txnType, key)
  }

  lemma GrantedHere(store: map<string, Contract>, c: Contract, publicKey: string, txnType: TxnType, key: Key)
    requires Grants(c, publicKey, txnType, key)
    ensures GrantedBy(store, c, publicKey, txnType, key)
  {
    assert Chain(store, [c]) && [c][0] == c && [c][|[c]| - 1] == c;
    assert Reaches(store, c, c);
  }

  lemma GrantedBelow(store: map<string, Contract>, c: Contract, d: Contract, publicKey: string, txnType: TxnType, key: Key)
    requires Inherits(store, c, d) && GrantedBy(store, d, publicKey, txnType, key)
    ensures GrantedBy(store, c, publicKey, txnType, key)
  {
    hide Inherits, Grants;
    var e :| Reaches(store, d, e) && Grants(e, publicKey, txnType, key);
    var p :| Chain(store, p) && p[0] == d && p[|p| - 1] == e;
    var q := [c] + p;
    forall i | 0 < i < |q| ensures Inherits(store, q[i - 1], q[i]) {
      if i > 1 { assert Inherits(store, p[i - 2], p[i - 1]); }
    }
    assert Chain(store, q) && q[0] == c && q[|q| - 1] == e;
    assert Reaches(store, c, e);
  }

  datatype Permission =
    | ToUpdate | ToTransfer | ToQuash | ToMint | ToVote | ToPropose | ToSetExpense | ToSetRate | ToRevoke | ToComply

  predicate Has(p: Permissions, permission: Permission) {
    match permission
    case ToUpdate => p.updateContract
    case ToTransfer => p.transfer
    case ToQuash => p.quash
    case ToMint => p.mint
    case ToVote => p.vote
    case ToPropose => p.propose
    case ToSetExpense => p.expenseRatio
    case ToSetRate => p.curEquiv
    case ToRevoke => p.revoke
    case ToComply => p.compliance
  }

  /** A contract on an inheritance chain lists the key with a permission of this kind. */
  ghost predicate ListedWith(store: map<string, Contract>, c: Contract, publicKey: string, permission: Permission) {
    exists d, key :: Reaches(store, c, d) && key in d.restrictedKeys && !IsInheritedId(key.publicKey)
                     && key.publicKey == publicKey && Has(key.permissions, permission)
  }

  lemma PermissionDecides(store: map<string, Contract>, c: Contract, publicKey: string, txnType: TxnType, permission: Permission)
    requires forall key: Key :: CheckType(key, txnType) <==> Has(key.permissions, permission)
    ensures Authorized(store, c, publicKey, txnType) <==> ListedWith(store, c, publicKey, permission)
  {
    hide Reaches, IsInheritedId, CheckType, Has;
    if Authorized(store, c, publicKey, txnType) {
      var key :| GrantedBy(store, c, publicKey, txnType, key);
      var d :| Reaches(store, c, d) && Grants(d, publicKey, txnType, key);
      assert CheckType(key, txnType);
    }
    if ListedWith(store, c, publicKey, permission) {
      var d, key :| Reaches(store, c, d) && key in d.restrictedKeys && !IsInheritedId(key.publicKey)
                    && key.publicKey == publicKey && Has(key.permissions, permission);
      assert CheckType(key, txnType);
      assert Grants(d, publicKey, txnType, key);
      assert GrantedBy(store, c, publicKey, txnType, key);
    }
  }

  /** What each permission authorises: a key that is nowhere listed with it cannot do these things.
      First the permissions over the token itself, ... */
  lemma TokenPermissions(store: map<string, Contract>, c: Contract, publicKey: string)
    ensures forall t :: t in {COIN_TYPE, NFT_TYPE, ALLOWANCE_TYPE} ==>
      (Authorized(store, c, publicKey, t) <==> ListedWith(store, c, publicKey, ToTransfer))
    ensures forall t :: t in {MINT_TYPE, ITEM_MINT_TYPE} ==>
      (Authorized(store, c, publicKey, t) <==> ListedWith(store, c, publicKey, ToMint))
    ensures forall t :: t in {SELF_CURRENCY_EQUIV_TYPE, AUTHORIZED_CURRENCY_EQUIV_TYPE} ==>
      (Authorized(store, c, publicKey, t) <==> ListedWith(store, c, publicKey, ToSetRate))
  {
    hide Authorized, ListedWith;
    PermissionDecides(store, c, publicKey, COIN_TYPE, ToTransfer);
    PermissionDecides(store, c, publicKey, NFT_TYPE, ToTransfer);
    PermissionDecides(store, c, publicKey, ALLOWANCE_TYPE, ToTransfer);
    PermissionDecides(store, c, publicKey, MINT_TYPE, ToMint);
    PermissionDecides(store, c, publicKey, ITEM_MINT_TYPE, ToMint);
    PermissionDecides(store, c, publicKey, SELF_CURRENCY_EQUIV_TYPE, ToSetRate);
    PermissionDecides(store, c, publicKey, AUTHORIZED_CURRENCY_EQUIV_TYPE, ToSetRate);
  }

  /** ... then those over the contract, ... */
  lemma ContractPermissions(store: map<string, Contract>, c: Contract, publicKey: string)
    ensures forall t :: t in {UPDATE_CONTRACT_TYPE, FOUNDATION_TYPE} ==>
      (Authorized(store, c, publicKey, t) <==> ListedWith(store, c, publicKey, ToUpdate))
    ensures Authorized(store, c, publicKey, EXPENSE_RATIO_TYPE) <==> ListedWith(store, c, publicKey, ToSetExpense)
    ensures Authorized(store, c, publicKey, COMPLIANCE_TYPE) <==> ListedWith(store, c, publicKey, ToComply)
    ensures Authorized(store, c, publicKey, REVOKE_TYPE) <==> ListedWith(store, c, publicKey, ToRevoke)
  {
    hide Authorized, ListedWith;
    PermissionDecides(store, c, publicKey, UPDATE_CONTRACT_TYPE, ToUpdate);
    PermissionDecides(store, c, publicKey, FOUNDATION_TYPE, ToUpdate);
    PermissionDecides(store, c, publicKey, EXPENSE_RATIO_TYPE, ToSetExpense);
    PermissionDecides(store, c, publicKey, COMPLIANCE_TYPE, ToComply);
    PermissionDecides(store, c, publicKey, REVOKE_TYPE, ToRevoke);
  }

  /** ... and those to take part in its governance. */
  lemma GovernancePermissions(store: map<string, Contract>, c: Contract, publicKey: string)
    ensures Authorized(store, c, publicKey, QUASH_TYPE) <==> ListedWith(store, c, publicKey, ToQuash)
    ensures Authorized(store, c, publicKey, VOTE_TYPE) <==> ListedWith(store, c, publicKey, ToVote)
    ensures Authorized(store, c, publicKey, PROPOSAL_TYPE) <==> ListedWith(store, c, publicKey, ToPropose)
  {
    hide Authorized, ListedWith;
    PermissionDecides(store, c, publicKey, QUASH_TYPE, ToQuash);
    PermissionDecides(store, c, publicKey, VOTE_TYPE, ToVote);
    PermissionDecides(store, c, publicKey, PROPOSAL_TYPE, ToPropose);
  }

  // ---- the search ---------------------------------------------------------------------------

  class KeySearch {
    const store: map<string, Contract>
    const publicKey: string
    const txnType: TxnType
    ghost const root: Contract
    var checkedInherited: seq<string>
    var timeDelay: nat
    var restrictedKey: Key
    var keyWeight: nat

    constructor (store: map<string, Contract>, publicKey: string, txnType: TxnType, ghost root: Contract, noKey: Key)
      ensures this.store == store && this.publicKey == publicKey && this.txnType == txnType && this.root == root
      ensures checkedInherited == [] && timeDelay == 0 && restrictedKey == noKey && keyWeight == 4294967295
    {
      this.store, this.publicKey, this.txnType, this.root := store, publicKey, txnType, root;
      checkedInherited, timeDelay, restrictedKey, keyWeight := [], 0, noKey, 4294967295;
    }

    /** The contracts a search can come by. */
    ghost predicate Known(c: Contract) {
      c == root || c == GetContract(store, c.contractId)
    }

    ghost predicate Valid() {
      WellStored(store) && Current(store, root)
    }

    /** The ids that are left when c and the ids in `checked` are looked at. */
    ghost function Left(c: Contract, checked: seq<string>): set<string> {
      store.Keys + {"", c.contractId} - set id | id in checked
    }

    /** All contracts that were finished since `before` neither list the key nor inherit from
        contracts that were not looked at. */
    ghost predicate Done(before: seq<string>, after: seq<string>) {
      forall c :: Known(c) && c.contractId in after && c.contractId !in before ==> Finished(c, after)
    }

    ghost predicate Finished(c: Contract, after: seq<string>) {
      forall i :: 0 <= i < |c.restrictedKeys| ==> KeyDone(c, i, after)
    }

    ghost predicate KeyDone(c: Contract, i: nat, after: seq<string>)
      requires i < |c.restrictedKeys|
    {
      var key := c.restrictedKeys[i];
      if IsInheritedId(key.publicKey) then GetContract(store, key.publicKey).contractId in after
      else !(key.publicKey == publicKey && CheckType(key, txnType))
    }

    /** check_delegated_keys */
    method CheckDelegatedKeys(contract: Contract) returns (found: bool)
      requires Valid() && Known(contract)
      modifies this
      ensures old(checkedInherited) <= checkedInherited && contract.contractId in checkedInherited
      ensures found ==> (GrantedBy(store, contract, publicKey, txnType, restrictedKey) && timeDelay == restrictedKey.timeDelay
          && keyWeight == if restrictedKey.keyWeight < old(keyWeight) then restrictedKey.keyWeight else old(keyWeight))
      ensures !found ==> Done(old(checkedInherited), checkedInherited)
      ensures !found ==> timeDelay == old(timeDelay) && restrictedKey == old(restrictedKey) && keyWeight == old(keyWeight)
      decreases Left(contract, checkedInherited)
    {
      hide GrantedBy, Inherits, IsInheritedId, KeyDone, Left, Valid, Known;
      if contract.contractId in checkedInherited {
        return false;
      }
      checkedInherited := checkedInherited + [contract.contractId];
      for i := 0 to |contract.restrictedKeys|
        invariant old(checkedInherited) + [contract.contractId] <= checkedInherited
        invariant Done(old(checkedInherited) + [contract.contractId], checkedInherited)
        invariant forall k :: 0 <= k < i ==> KeyDone(contract, k, checkedInherited)
        invariant timeDelay == old(timeDelay) && restrictedKey == old(restrictedKey) && keyWeight == old(keyWeight)
      {
        var key := contract.restrictedKeys[i];
        if IsInheritedId(key.publicKey) {
          var inheritedContract := GetContract(store, key.publicKey);
          ghost var before := checkedInherited;
          Inherited(contract, i, old(checkedInherited), before);
          found := CheckDelegatedKeys(inheritedContract);
          StillDone(contract, i, old(checkedInherited) + [contract.contractId], before, checkedInherited);
          if found {
            GrantedBelow(store, contract, inheritedContract, publicKey, txnType, restrictedKey);
            return true;
          }
        } else if key.publicKey == publicKey && CheckType(key, txnType) {
          restrictedKey := key;
          timeDelay := key.timeDelay;
          if key.keyWeight < keyWeight {
            keyWeight := key.keyWeight;
          }
          GrantedHere(store, contract, publicKey, txnType, key);
          return true;
        }
        assert KeyDone(contract, i, checkedInherited) by { KeyIsDone(contract, i, checkedInherited); }
      }
      AllDone(contract, old(checkedInherited), checkedInherited);
      return false;
    }

    lemma Inherited(c: Contract, i: nat, before: seq<string>, now: seq<string>)
      requires Valid() && i < |c.restrictedKeys| && IsInheritedId(c.restrictedKeys[i].publicKey)
      requires c.contractId !in before && before + [c.contractId] <= now
      ensures var d := GetContract(store, c.restrictedKeys[i].publicKey);
              Known(d) && Inherits(store, c, d) && Left(d, now) < Left(c, before)
    {
      hide IsInheritedId;
      var d := GetContract(store, c.restrictedKeys[i].publicKey);
      assert c.restrictedKeys[i] in c.restrictedKeys;
      assert c.contractId in now by { assert (before + [c.contractId])[|before|] == c.contractId; }
      assert forall id :: id in before ==> id in (before + [c.contractId]);
      assert c.contractId in Left(c, before) && c.contractId !in Left(d, now);
    }

    lemma KeyIsDone(c: Contract, i: nat, after: seq<string>)
      requires i < |c.restrictedKeys|
      requires var key := c.restrictedKeys[i];
               if IsInheritedId(key.publicKey) then GetContract(store, key.publicKey).contractId in after
               else !(key.publicKey == publicKey && CheckType(key, txnType))
      ensures KeyDone(c, i, after)
    {}

    /** What was finished stays so, and a finished call adds its own. */
    lemma StillDone(c: Contract, i: nat, start: seq<string>, before: seq<string>, after: seq<string>)
      requires Done(start, before) && start <= before <= after && i <= |c.restrictedKeys|
      requires forall k :: 0 <= k < i ==> KeyDone(c, k, before)
      ensures forall k :: 0 <= k < i ==> KeyDone(c, k, after)
      ensures Done(before, after) ==> Done(start, after)
    {
      hide IsInheritedId, Known;
      assert forall id :: id in before ==> id in after;
      assert forall d: Contract, k :: 0 <= k < |d.restrictedKeys| && KeyDone(d, k, before) ==> KeyDone(d, k, after);
    }

    lemma AllDone(c: Contract, before: seq<string>, after: seq<string>)
      requires Valid() && Known(c) && Done(before + [c.contractId], after)
      requires Finished(c, after)
      ensures Done(before, after)
    {
      forall d | Known(d) && d.contractId in after && d.contractId !in before
        ensures Finished(d, after)
      {
        if d.contractId == c.contractId {
          assert d == c;
        }
      }
    }
  }

  // ---- what the search answers --------------------------------------------------------------

  /** When everything looked at is finished, no chain leads to the key. */
  lemma {:induction false} ChainStaysInside(search: KeySearch, p: seq<Contract>, i: nat, after: seq<string>)
    requires search.Valid() && search.Done([], after) && Chain(search.store, p) && i < |p|
    requires p[0] == search.root && search.root.contractId in after
    ensures search.Known(p[i]) && p[i].contractId in after
  {
    hide IsInheritedId;
    if i > 0 {
      ChainStaysInside(search, p, i - 1, after);
      var c := p[i - 1];
      assert Inherits(search.store, c, p[i]);
      var key :| key in c.restrictedKeys && IsInheritedId(key.publicKey) && p[i] == GetContract(search.store, key.publicKey);
      var k :| 0 <= k < |c.restrictedKeys| && c.restrictedKeys[k] == key;
      assert search.Finished(c, after);
      assert search.KeyDone(c, k, after);
    }
  }

  lemma NothingGranted(search: KeySearch, after: seq<string>)
    requires search.Valid() && search.Done([], after) && search.root.contractId in after
    ensures !Authorized(search.store, search.root, search.publicKey, search.txnType)
  {
    hide IsInheritedId, Inherits;
    forall d, key | Reaches(search.store, search.root, d)
      ensures !Grants(d, search.publicKey, search.txnType, key)
    {
      var p :| Chain(search.store, p) && p[0] == search.root && p[|p| - 1] == d;
      ChainStaysInside(search, p, |p| - 1, after);
      FinishedGrantsNothing(search, d, after, key);
    }
  }

  lemma FinishedGrantsNothing(search: KeySearch, d: Contract, after: seq<string>, key: Key)
    requires search.Finished(d, after)
    ensures !Grants(d, search.publicKey, search.txnType, key)
  {
    hide IsInheritedId;
    if key in d.restrictedKeys {
      var k :| 0 <= k < |d.restrictedKeys| && d.restrictedKeys[k] == key;
      assert search.KeyDone(d, k, after);
    }
  }

  /** A search that starts with an empty list finds the key exactly if it is authorized. */
  method FindKey(store: map<string, Contract>, contract: Contract, publicKey: string, txnType: TxnType, noKey: Key)
      returns (found: bool, key: Key, timeDelay: nat, keyWeight: nat)
    requires WellStored(store) && Current(store, contract)
    ensures found <==> Authorized(store, contract, publicKey, txnType)
    ensures found ==> GrantedBy(store, contract, publicKey, txnType, key) && timeDelay == key.timeDelay
    ensures found ==> keyWeight == if key.keyWeight < 4294967295 then key.keyWeight else 4294967295
  {
    var search := new KeySearch(store, publicKey, txnType, contract, noKey);
    found := search.CheckDelegatedKeys(contract);
    if !found {
      NothingGranted(search, search.checkedInherited);
    }
    key, timeDelay, keyWeight := search.restrictedKey, search.timeDelay, search.keyWeight;
  }

  datatype KeyStatus = Ok | NonRestrictedKey | TimeDelay(seconds: nat)

  /** check_restricted_keys: who may send the transaction, and after which delay. The key found
      always has the permission, so the second permission check never refuses it. */
  method CheckRestrictedKeys(store: map<string, Contract>, contract: Contract, publicKey: string, restrictedWallet: bool,
                             txnType: TxnType, timed: bool, noKey: Key) returns (status: KeyStatus, ghost key: Key)
    requires WellStored(store) && Current(store, contract)
    ensures !restrictedWallet || !Authorized(store, contract, publicKey, txnType) ==>
      status == if CheckRestrictedRequired(txnType) then Ok else NonRestrictedKey
    ensures restrictedWallet && Authorized(store, contract, publicKey, txnType) ==>
      && GrantedBy(store, contract, publicKey, txnType, key)
      && status == if key.timeDelay > 0 && !timed then TimeDelay(key.timeDelay) else Ok
  {
    hide CheckRestrictedRequired, Inherits, IsInheritedId;
    key := noKey;
    if !restrictedWallet {
      if !CheckRestrictedRequired(txnType) {
        return NonRestrictedKey, key;
      }
      return Ok, key;
    }
    var found, restrictedKey, timeDelay, _ := FindKey(store, contract, publicKey, txnType, noKey);
    key := restrictedKey;
    if !found {
      if !CheckRestrictedRequired(txnType) {
        return NonRestrictedKey, key;
      }
      return Ok, key;
    }
    if CheckType(restrictedKey, txnType) {
      timeDelay := restrictedKey.timeDelay;
    } else {
      return NonRestrictedKey, key;
    }
    if timeDelay > 0 && !timed {
      return TimeDelay(timeDelay), key;
    }
    return Ok, key;
  }
}
