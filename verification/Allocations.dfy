/**
 Genesis allocations on the heap: balances, code and storage are objects that accounts point to. A dump is
 copied deeply and the copy is funded in place, balance by balance.
 */
module Allocations {
  import opened Basics

  type Address = nat

  class BigInt {
    var value: nat

    constructor (value: nat)
      ensures this.value == value
    {
      this.value := value;
    }

    /** Adds in place, like Go's x.Add(x, y). */
    method Add(y: nat)
      modifies this
      ensures value == old(value) + y
    {
      value := value + y;
    }
  }

  class Storage {
    var slots: map<nat, nat>

    constructor (slots: map<nat, nat>)
      ensures this.slots == slots
    {
      this.slots := slots;
    }
  }

  class Code {
    var bytes: seq<Byte>

    constructor (bytes: seq<Byte>)
      ensures this.bytes == bytes
    {
      this.bytes := bytes;
    }
  }

  /** Any of the references may be nil. */
  datatype Account = Account(code: Code?, storage: Storage?, balance: BigInt?, nonce: U64)

  const NO_ACCOUNT := Account(null, null, null, 0)

  // ----- accounts as values -----

  datatype AccountValue = AccountValue(code: Option<seq<Byte>>, storage: Option<map<nat, nat>>,
                                       balance: Option<nat>, nonce: U64)

  const NO_VALUE := AccountValue(None, None, None, 0)

  ghost function ValueOf(acc: Account): AccountValue
    reads acc.code, acc.storage, acc.balance
  {
    AccountValue(
      if acc.code != null then Some(acc.code.bytes) else None,
      if acc.storage != null then Some(acc.storage.slots) else None,
      if acc.balance != null then Some(acc.balance.value) else None,
      acc.nonce)
  }

  ghost function Codes(m: map<Address, Account>): set<Code> {
    set a | a in m && m[a].code != null :: m[a].code
  }

  ghost function Storages(m: map<Address, Account>): set<Storage> {
    set a | a in m && m[a].storage != null :: m[a].storage
  }

  ghost function Balances(m: map<Address, Account>): set<BigInt> {
    set a | a in m && m[a].balance != null :: m[a].balance
  }

  ghost function View(m: map<Address, Account>): map<Address, AccountValue>
    reads Codes(m), Storages(m), Balances(m)
  {
    map a | a in m :: ValueOf(m[a])
  }

  /** No two accounts share a balance. */
  ghost predicate Unshared(m: map<Address, Account>) {
    forall a, b :: a in m && b in m && a != b && m[a].balance != null ==> m[a].balance != m[b].balance
  }

  // ----- copying -----

  /** Nothing the account refers to was there before. */
  twostate predicate IsFresh(new acc: Account) {
    && (acc.code != null ==> fresh(acc.code))
    && (acc.storage != null ==> fresh(acc.storage))
    && (acc.balance != null ==> fresh(acc.balance))
  }

  method CopyAccount(acc: Account) returns (out: Account)
    requires acc.balance != null
    ensures out.balance != null && ValueOf(out) == ValueOf(acc) && IsFresh(out)
  {
    var code: Code? := null;
    if acc.code != null {
      code := new Code(acc.code.bytes);
    }
    var storage: Storage? := null;
    if acc.storage != null {
      storage := new Storage(acc.storage.slots);
    }
    var balance := new BigInt(acc.balance.value);
    out := Account(code, storage, balance, acc.nonce);
  }

  /** Fresh objects that hold what those of `acc` held. */
  twostate predicate CopyOf(new copy: Account, acc: Account)
    reads copy.code, copy.storage, copy.balance
  {
    IsFresh(copy) && ValueOf(copy) == old(ValueOf(acc))
  }

  /** A copy of every account, no two of them with the same balance object. */
  method CopyAccounts(accounts: map<Address, Account>) returns (out: map<Address, Account>)
    requires forall a :: a in accounts ==> accounts[a].balance != null
    ensures out.Keys == accounts.Keys && Unshared(out)
    ensures forall a :: a in out ==> CopyOf(out[a], accounts[a])
  {
    out := map[];
    var todo := accounts.Keys;
    while todo != {}
      invariant todo <= accounts.Keys && out.Keys == accounts.Keys - todo
      invariant forall a :: a in out ==> CopyOf(out[a], accounts[a])
      invariant Unshared(out)
      decreases |todo|
    {
      var k :| k in todo;
      var copy := CopyAccount(accounts[k]);
      out := out[k := copy];
      todo := todo - {k};
    }
  }

  /** A deep copy: the same values in objects that nothing else refers to, no two balances shared. */
  method Copy(accounts: map<Address, Account>) returns (out: map<Address, Account>)
    requires forall a :: a in accounts ==> accounts[a].balance != null
    ensures View(accounts) == old(View(accounts)) && View(out) == old(View(accounts))
    ensures fresh(Codes(out)) && fresh(Storages(out)) && fresh(Balances(out)) && Unshared(out)
  {
    out := CopyAccounts(accounts);
    assert View(accounts) == old(View(accounts));
  }

  // ----- funding, on values -----

  function BalanceOf(v: AccountValue): nat {
    if v.balance.Some? then v.balance.value else 0
  }

  function At(m: map<Address, AccountValue>, a: Address): AccountValue {
    if a in m then m[a] else NO_VALUE
  }

  /** One account gets `amount` more; it comes into being if there is none. */
  function Credit(m: map<Address, AccountValue>, a: Address, amount: nat): map<Address, AccountValue> {
    m[a := At(m, a).(balance := Some(BalanceOf(At(m, a)) + amount))]
  }

  lemma CreditIs(m: map<Address, AccountValue>, m': map<Address, AccountValue>, a: Address, amount: nat)
    requires forall b :: b in m' <==> b in m || b == a
    requires a in m' && m'[a] == At(m, a).(balance := Some(BalanceOf(At(m, a)) + amount))
    requires forall b :: b in m && b != a ==> m'[b] == m[b]
    ensures m' == Credit(m, a, amount)
  {
  }

  function CreditAll(m: map<Address, AccountValue>, accounts: seq<Address>, amount: nat): map<Address, AccountValue> {
    if accounts == [] then m
    else Credit(CreditAll(m, accounts[..|accounts| - 1], amount), accounts[|accounts| - 1], amount)
  }

  ghost function Total(m: map<Address, AccountValue>): nat
    decreases |m|
  {
    if m == map[] then 0
    else
      var a :| a in m;
      BalanceOf(m[a]) + Total(m - {a})
  }

  /** The total does not depend on the order of the sum. */
  lemma {:induction false} TotalWithout(m: map<Address, AccountValue>, a: Address)
    requires a in m
    ensures Total(m) == BalanceOf(m[a]) + Total(m - {a})
    decreases |m|
  {
    var b :| b in m && Total(m) == BalanceOf(m[b]) + Total(m - {b});
    if a != b {
      TotalWithout(m - {b}, a);
      TotalWithout(m - {a}, b);
      assert m - {a} - {b} == m - {b} - {a};
    }
  }

  lemma CreditTotal(m: map<Address, AccountValue>, a: Address, amount: nat)
    ensures Total(Credit(m, a, amount)) == Total(m) + amount
  {
    var m' := Credit(m, a, amount);
    TotalWithout(m', a);
    if a in m {
      TotalWithout(m, a);
      assert m' - {a} == m - {a};
    } else {
      assert m' - {a} == m;
    }
  }

  lemma OneMore(n: nat, amount: nat)
    ensures (n + 1) * amount == n * amount + amount
  {
  }

  lemma {:induction false} CreditAllTotal(m: map<Address, AccountValue>, accounts: seq<Address>, amount: nat)
    ensures Total(CreditAll(m, accounts, amount)) == Total(m) + |accounts| * amount
  {
    if accounts != [] {
      var init := accounts[..|accounts| - 1];
      CreditAllTotal(m, init, amount);
      CreditTotal(CreditAll(m, init, amount), accounts[|accounts| - 1], amount);
      OneMore(|init|, amount);
    }
  }

  function Count(accounts: seq<Address>, a: Address): nat {
    if accounts == [] then 0
    else Count(accounts[..|accounts| - 1], a) + if accounts[|accounts| - 1] == a then 1 else 0
  }

  /** Each account gets `amount` as often as it is listed, and nothing else of it changes. */
  lemma {:induction false} CreditAllAt(m: map<Address, AccountValue>, accounts: seq<Address>, amount: nat, a: Address)
    ensures var m' := CreditAll(m, accounts, amount);
            && (a in m' <==> a in m || a in accounts)
            && BalanceOf(At(m', a)) == BalanceOf(At(m, a)) + Count(accounts, a) * amount
            && At(m', a).(balance := None) == At(m, a).(balance := None)
            && (a !in accounts ==> At(m', a) == At(m, a))
  {
    if accounts != [] {
      var init, last := accounts[..|accounts| - 1], accounts[|accounts| - 1];
      CreditAllAt(m, init, amount, a);
      assert accounts == init + [last];
      OneMore(Count(init, a), amount);
    }
  }

  // ----- funding, in place -----

  const PRECOMPILE_COUNT: nat := 256

  const DEV_BALANCE: nat := 0x200000000000000000000000000000000000000000000000000000000000000

  /** The accounts that are funded for development. */
  const DEV_ACCOUNTS: seq<Address> := [
    0x14dC79964da2C08b23698B3D3cc7Ca32193d9955,
    0x15d34AAf54267DB7D7c367839AAf71A00a2C6A65,
    0x1CBd3b2770909D4e10f157cABC84C7264073C9Ec,
    0x23618e81E3f5cdF7f54C3d65f7FBc0aBf5B21E8f,
    0x2546BcD3c84621e976D8185a91A922aE77ECEc30,
    0x3C44CdDdB6a900fa2b585dd299e03d12FA4293BC,
    0x70997970C51812dc3A010C7d01b50e0d17dc79C8,
    0x71bE63f3384f5fb98995898A86B02Fb2426c5788,
    0x8626f6940E2eb28930eFb4CeF49B2d1F2C9C1199,
    0x90F79bf6EB2c4f870365E785982E1f101E93b906,
    0x976EA74026E726554dB657fA54763abd0C3a0aa9,
    0x9965507D1a55bcC2695C58ba16FB37d819B0A4dc,
    0xBcd4042DE499D14e55001CcbB24a551F3b954096,
    0xFABB0ac9d68B0B445fB7357272Ff202C5651694a,
    0xa0Ee7A142d267C1f36714E4a8F75612F20a79720,
    0xbDA5747bFD65F08deb54cb465eB87D40e51B197E,
    0xcd3B766CCDd6AE721141F452C550Ca635964ce71,
    0xdD2FD4581271e230360230F9337D5c0430Bf44C0,
    0xdF3e18d64BC6A983f673Ab319CCaE4f1a57C7097,
    0xDe3829A23DF1479438622a08a116E8Eb3f620BB5,
    0xf39Fd6e51aad88F6F4ce6aB8827279cffFb92266,
    0x71562b71999873DB5b286dF957af199Ec94617F7,
    0x3fab184622dc19b6109349b94811493bf2a45362
  ]

  function PrecompileAddresses(n: nat): (r: seq<Address>)
    ensures |r| == n
    ensures forall i :: 0 <= i < n ==> r[i] == i
  {
    seq(n, i => i)
  }

  class Genesis {
    var alloc: map<Address, Account>

    constructor (alloc: map<Address, Account>)
      ensures this.alloc == alloc
    {
      this.alloc := alloc;
    }

    /** Add to the balance of one account, in place; an account without one gets a new balance. */
    method Fund(a: Address, amount: nat)
      requires Unshared(alloc)
      modifies this, Balances(alloc)
      ensures Unshared(alloc)
      ensures fresh(Balances(alloc) - old(Balances(alloc)))
      ensures View(alloc) == Credit(old(View(alloc)), a, amount)
    {
      var acc := Funded(alloc, a, amount);
      alloc := alloc[a := acc];
    }

    method FundDevAccounts()
      requires Unshared(alloc)
      modifies this, Balances(alloc)
      ensures Unshared(alloc) && fresh(Balances(alloc) - old(Balances(alloc)))
      ensures View(alloc) == CreditAll(old(View(alloc)), DEV_ACCOUNTS, DEV_BALANCE)
    {
      ghost var v := View(alloc);
      for i := 0 to |DEV_ACCOUNTS|
        invariant Unshared(alloc) && fresh(Balances(alloc) - old(Balances(alloc)))
        invariant View(alloc) == CreditAll(v, DEV_ACCOUNTS[..i], DEV_BALANCE)
      {
        CreditNext(v, DEV_ACCOUNTS, i, DEV_BALANCE);
        Fund(DEV_ACCOUNTS[i], DEV_BALANCE);
      }
      assert DEV_ACCOUNTS[..|DEV_ACCOUNTS|] == DEV_ACCOUNTS;
    }

    method SetPrecompileBalances()
      requires Unshared(alloc)
      modifies this, Balances(alloc)
      ensures Unshared(alloc) && fresh(Balances(alloc) - old(Balances(alloc)))
      ensures View(alloc) == CreditAll(old(View(alloc)), PrecompileAddresses(PRECOMPILE_COUNT), 1)
    {
      ghost var v, precompiles := View(alloc), PrecompileAddresses(PRECOMPILE_COUNT);
      for i := 0 to PRECOMPILE_COUNT
        invariant Unshared(alloc) && fresh(Balances(alloc) - old(Balances(alloc)))
        invariant View(alloc) == CreditAll(v, precompiles[..i], 1)
      {
        CreditNext(v, precompiles, i, 1);
        Fund(i, 1);
      }
      assert precompiles[..PRECOMPILE_COUNT] == precompiles;
    }
  }

  lemma CreditNext(m: map<Address, AccountValue>, accounts: seq<Address>, i: nat, amount: nat)
    requires i < |accounts|
    ensures CreditAll(m, accounts[..i + 1], amount) == Credit(CreditAll(m, accounts[..i], amount), accounts[i], amount)
  {
    assert accounts[..i + 1][..i] == accounts[..i];
  }

  /** What the allocation of a developer chain is, given the dump. */
  function Funding(m: map<Address, AccountValue>, fundDevAccounts: bool): map<Address, AccountValue> {
    CreditAll(if fundDevAccounts then CreditAll(m, DEV_ACCOUNTS, DEV_BALANCE) else m,
              PrecompileAddresses(PRECOMPILE_COUNT), 1)
  }

  method CopyGenesis(dump: map<Address, Account>) returns (genesis: Genesis)
    requires forall a :: a in dump ==> dump[a].balance != null
    ensures fresh(genesis) && Unshared(genesis.alloc) && fresh(Balances(genesis.alloc))
    ensures View(dump) == old(View(dump)) && View(genesis.alloc) == old(View(dump))
  {
    var copy := Copy(dump);
    ghost var v := View(copy);
    genesis := new Genesis(copy);
    assert View(copy) == v;
  }

  method FundAll(genesis: Genesis, fundDevAccounts: bool)
    requires Unshared(genesis.alloc)
    modifies genesis, Balances(genesis.alloc)
    ensures View(genesis.alloc) == Funding(old(View(genesis.alloc)), fundDevAccounts)
  {
    if fundDevAccounts {
      genesis.FundDevAccounts();
    }
    genesis.SetPrecompileBalances();
  }

  /** Copy the dump and fund the copy in place; the dump is left as it was. */
  method BuildL1Alloc(dump: map<Address, Account>, fundDevAccounts: bool) returns (genesis: Genesis)
    requires forall a :: a in dump ==> dump[a].balance != null
    ensures fresh(genesis)
    ensures View(dump) == old(View(dump))
    ensures View(genesis.alloc) == Funding(old(View(dump)), fundDevAccounts)
  {
    genesis := CopyGenesis(dump);
    assert View(genesis.alloc) == old(View(dump));
    FundAll(genesis, fundDevAccounts);
    assert forall a :: a in dump ==> ValueOf(dump[a]) == old(ValueOf(dump[a]));
  }

  /**
   Funding raises the total by one DEV_BALANCE per listed account and one wei per precompile, and leaves
   every account that is in neither list as it is.
   */
  lemma FundingConserves(m: map<Address, AccountValue>, fundDevAccounts: bool)
    ensures Total(Funding(m, fundDevAccounts)) ==
            Total(m) + (if fundDevAccounts then |DEV_ACCOUNTS| * DEV_BALANCE else 0) + 256
    ensures forall a: Address :: !(fundDevAccounts && a in DEV_ACCOUNTS) && a >= 256 ==>
              At(Funding(m, fundDevAccounts), a) == At(m, a)
    ensures forall a: Address :: At(Funding(m, fundDevAccounts), a).(balance := None) == At(m, a).(balance := None)
  {
    var m1 := if fundDevAccounts then CreditAll(m, DEV_ACCOUNTS, DEV_BALANCE) else m;
    var precompiles := PrecompileAddresses(PRECOMPILE_COUNT);
    CreditAllTotal(m, DEV_ACCOUNTS, DEV_BALANCE);
    CreditAllTotal(m1, precompiles, 1);
    forall a: Address
      ensures !(fundDevAccounts && a in DEV_ACCOUNTS) && a >= PRECOMPILE_COUNT ==>
                At(Funding(m, fundDevAccounts), a) == At(m, a)
      ensures At(Funding(m, fundDevAccounts), a).(balance := None) == At(m, a).(balance := None)
    {
      CreditAllAt(m, DEV_ACCOUNTS, DEV_BALANCE, a);
      CreditAllAt(m1, precompiles, 1, a);
      assert a >= PRECOMPILE_COUNT ==> a !in precompiles;
    }
  }

  /** The account, with a balance: its own one or, if it has none, a new one. */
  method Owned(m: map<Address, Account>, a: Address) returns (acc: Account)
    ensures acc.balance != null
    ensures fresh(acc.balance) || (a in m && acc.balance == m[a].balance)
    ensures ValueOf(acc) == At(View(m), a).(balance := Some(BalanceOf(At(View(m), a))))
  {
    acc := if a in m then m[a] else NO_ACCOUNT;
    if acc.balance == null {
      var balance := new BigInt(0);
      acc := acc.(balance := balance);
    }
  }

  /** Adding to one balance changes that account and no other. */
  method Deposit(ghost m: map<Address, Account>, ghost a: Address, acc: Account, amount: nat)
    requires acc.balance != null
    requires forall b :: b in m && b != a ==> m[b].balance != acc.balance
    modifies acc.balance
    ensures ValueOf(acc) == old(ValueOf(acc)).(balance := Some(old(acc.balance.value) + amount))
    ensures forall b :: b in m && b != a ==> ValueOf(m[b]) == old(ValueOf(m[b]))
  {
    acc.balance.Add(amount);
  }

  /** Written back, the account is credited. */
  method Credited(ghost m: map<Address, Account>, ghost a: Address, acc: Account, amount: nat)
    requires acc.balance != null && ValueOf(acc) == At(View(m), a).(balance := Some(BalanceOf(At(View(m), a))))
    requires forall b :: b in m && b != a ==> m[b].balance != acc.balance
    modifies acc.balance
    ensures View(m[a := acc]) == Credit(old(View(m)), a, amount)
  {
    ghost var v := View(m);
    Deposit(m, a, acc, amount);
    ViewUpdated(m, a, acc, v, amount);
  }

  /** The account to write back after its balance was raised in place. */
  method Funded(m: map<Address, Account>, a: Address, amount: nat) returns (acc: Account)
    requires Unshared(m)
    modifies Balances(m)
    ensures acc.balance != null && (fresh(acc.balance) || acc.balance in Balances(m))
    ensures Unshared(m[a := acc]) && Balances(m[a := acc]) <= Balances(m) + {acc.balance}
    ensures View(m[a := acc]) == Credit(old(View(m)), a, amount)
  {
    acc := Owned(m, a);
    assert fresh(acc.balance) || acc.balance in Balances(m);
    assert View(m) == old(View(m));
    StillUnshared(m, a, acc);
    Credited(m, a, acc, amount);
  }

  lemma ViewUpdated(m: map<Address, Account>, a: Address, acc: Account, v: map<Address, AccountValue>, amount: nat)
    requires m.Keys == v.Keys
    requires forall b :: b in m && b != a ==> ValueOf(m[b]) == v[b]
    requires ValueOf(acc) == At(v, a).(balance := Some(BalanceOf(At(v, a)) + amount))
    ensures View(m[a := acc]) == Credit(v, a, amount)
  {
    CreditIs(v, View(m[a := acc]), a, amount);
  }

  lemma StillUnshared(m: map<Address, Account>, a: Address, acc: Account)
    requires Unshared(m) && acc.balance != null
    requires forall b :: b in m && b != a ==> m[b].balance != acc.balance
    ensures Unshared(m[a := acc])
    ensures Balances(m[a := acc]) <= Balances(m) + {acc.balance}
  {
  }
}
