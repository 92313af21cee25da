/**
 * The ledger service of src/services/ledger.ts over an in-memory store: a set of
 * wallet ids (the wallet table) and an append-only sequence of ledger entries.
 * A wallet's balance is never stored; it is the sum of its entries' amounts.
 */
module Ledger {
  import opened Wrappers

  type WalletId = string

  datatype TxType = Topup | Bonus | Spend

  /** The input of processTransaction, after schema validation (the amount is an integer). */
  datatype TxInput = TxInput(
    walletId: WalletId,
    amount: int,
    txType: TxType,
    referenceId: string,
    description: Option<string>)

  /** A committed ledger row. The store-assigned id is the row's position in the ledger. */
  datatype Entry = Entry(
    id: nat,
    walletId: WalletId,
    amount: int,
    txType: TxType,
    referenceId: string,
    description: Option<string>)

  /** The errors processTransaction throws; each carries what its message reports. */
  datatype LedgerError =
    | InvalidAmountSign(txType: TxType, provided: int)
    | WalletNotFound(walletId: WalletId)
    | InsufficientFunds(balance: int, required: int)

  datatype Outcome = Committed(entry: Entry) | Rejected(error: LedgerError)

  /** What one call leaves behind: its outcome and the ledger afterwards. */
  datatype Step = Step(outcome: Outcome, entries: seq<Entry>)

  /** The two sign rules: a SPEND must be negative, a TOPUP or BONUS positive. */
  predicate SignRuleViolated(t: TxType, amount: int) {
    (t == Spend && amount >= 0) || ((t == Topup || t == Bonus) && amount <= 0)
  }

  /** What one entry contributes to the balance of wallet w. */
  function Credit(e: Entry, w: WalletId): int {
    if e.walletId == w then e.amount else 0
  }

  /** getBalance: the sum of the amounts of w's entries, 0 when it has none. */
  function Balance(entries: seq<Entry>, w: WalletId): (b: int)
    ensures (forall i :: 0 <= i < |entries| ==> entries[i].walletId != w) ==> b == 0
  {
    if entries == [] then 0 else Credit(entries[0], w) + Balance(entries[1..], w)
  }

  // An independent reading of the aggregate: select the rows where walletId = w, then sum them.

  function Matching(entries: seq<Entry>, w: WalletId): (m: seq<Entry>)
    ensures forall e :: e in m ==> e in entries && e.walletId == w
    ensures forall e :: e in entries && e.walletId == w ==> e in m
  {
    if entries == [] then []
    else if entries[0].walletId == w then [entries[0]] + Matching(entries[1..], w)
    else Matching(entries[1..], w)
  }

  function SumAmounts(es: seq<Entry>): int {
    if es == [] then 0 else es[0].amount + SumAmounts(es[1..])
  }

  lemma {:induction false} BalanceIsSumOfMatching(entries: seq<Entry>, w: WalletId)
    ensures Balance(entries, w) == SumAmounts(Matching(entries, w))
  {
    if entries != [] {
      BalanceIsSumOfMatching(entries[1..], w);
      if entries[0].walletId == w {
        var m := Matching(entries[1..], w);
        assert ([entries[0]] + m)[1..] == m;
      }
    }
  }

  /** Appending one entry changes w's balance by exactly that entry's credit to w. */
  lemma {:induction false} BalanceAppend(entries: seq<Entry>, e: Entry, w: WalletId)
    ensures Balance(entries + [e], w) == Balance(entries, w) + Credit(e, w)
  {
    if entries == [] {
      assert [] + [e] == [e];
      assert [e][1..] == [];
    } else {
      assert (entries + [e])[1..] == entries[1..] + [e];
      BalanceAppend(entries[1..], e, w);
    }
  }

  /** The row processTransaction creates for input t when the ledger holds `id` rows. */
  function NewEntry(id: nat, t: TxInput): Entry {
    Entry(id, t.walletId, t.amount, t.txType, t.referenceId, t.description)
  }

  /**
   * processTransaction as a function of the store: the sign rules first (before any
   * store access), then the wallet lookup, then, for a SPEND only, the funds check
   * against the current balance; if all pass, exactly one entry is appended.
   */
  function Process(wallets: set<WalletId>, entries: seq<Entry>, t: TxInput): (r: Step)
    // precedence: a sign error is reported whatever the wallet and the balance
    ensures SignRuleViolated(t.txType, t.amount) ==>
              r.outcome == Rejected(InvalidAmountSign(t.txType, t.amount))
    ensures !SignRuleViolated(t.txType, t.amount) && t.walletId !in wallets ==>
              r.outcome == Rejected(WalletNotFound(t.walletId))
    ensures !SignRuleViolated(t.txType, t.amount) && t.walletId in wallets && t.txType == Spend
            && Balance(entries, t.walletId) + t.amount < 0 ==>
              r.outcome == Rejected(InsufficientFunds(Balance(entries, t.walletId), -t.amount))
    // success exactly when every rule passes; only a SPEND depends on the balance
    ensures r.outcome.Committed? <==>
              && !SignRuleViolated(t.txType, t.amount)
              && t.walletId in wallets
              && (t.txType == Spend ==> Balance(entries, t.walletId) + t.amount >= 0)
    // no write on rejection; one append, earlier rows untouched, on success
    ensures r.outcome.Rejected? ==> r.entries == entries
    ensures r.outcome.Committed? ==>
              r.outcome.entry == NewEntry(|entries|, t) && r.entries == entries + [r.outcome.entry]
  {
    if SignRuleViolated(t.txType, t.amount) then
      Step(Rejected(InvalidAmountSign(t.txType, t.amount)), entries)
    else if t.walletId !in wallets then
      Step(Rejected(WalletNotFound(t.walletId)), entries)
    else if t.txType == Spend && Balance(entries, t.walletId) + t.amount < 0 then
      Step(Rejected(InsufficientFunds(Balance(entries, t.walletId), -t.amount)), entries)
    else
      var e := NewEntry(|entries|, t);
      Step(Committed(e), entries + [e])
  }

  /** A committed call moves the balance of its own wallet by `amount` and no other balance. */
  lemma ProcessBalances(wallets: set<WalletId>, entries: seq<Entry>, t: TxInput, w: WalletId)
    ensures Balance(Process(wallets, entries, t).entries, w) ==
            Balance(entries, w) +
            (if Process(wallets, entries, t).outcome.Committed? && w == t.walletId then t.amount else 0)
  {
    var r := Process(wallets, entries, t);
    if r.outcome.Committed? {
      BalanceAppend(entries, r.outcome.entry, w);
    }
  }

  /** A non-negative balance stays non-negative across any call. */
  lemma ProcessKeepsBalanceNonNegative(wallets: set<WalletId>, entries: seq<Entry>, t: TxInput, w: WalletId)
    requires Balance(entries, w) >= 0
    ensures Balance(Process(wallets, entries, t).entries, w) >= 0
  {
    ProcessBalances(wallets, entries, t, w);
  }

  /** Row i is well formed: its id is its position, its wallet exists, and its sign fits its type. */
  ghost predicate WellFormedEntry(wallets: set<WalletId>, entries: seq<Entry>, i: int)
    requires 0 <= i < |entries|
  {
    entries[i].id == i && entries[i].walletId in wallets && !SignRuleViolated(entries[i].txType, entries[i].amount)
  }

  /**
   * The store invariant: every row is well formed, and no wallet's balance is negative at
   * any point of the committed history (after any prefix of the ledger).
   */
  ghost predicate LedgerInvariant(wallets: set<WalletId>, entries: seq<Entry>) {
    && (forall i :: 0 <= i < |entries| ==> WellFormedEntry(wallets, entries, i))
    && (forall k, w :: 0 <= k <= |entries| ==> Balance(entries[..k], w) >= 0)
  }

  lemma ProcessPreservesInvariant(wallets: set<WalletId>, entries: seq<Entry>, t: TxInput)
    requires LedgerInvariant(wallets, entries)
    ensures LedgerInvariant(wallets, Process(wallets, entries, t).entries)
  {
    var r := Process(wallets, entries, t);
    if r.outcome.Committed? {
      var next := r.entries;
      forall i | 0 <= i < |next| ensures WellFormedEntry(wallets, next, i) {
        if i < |entries| {
          assert next[i] == entries[i];
          assert WellFormedEntry(wallets, entries, i);
        }
      }
      forall k, w | 0 <= k <= |next| ensures Balance(next[..k], w) >= 0 {
        if k <= |entries| {
          assert next[..k] == entries[..k];
        } else {
          assert next[..k] == next;
          assert entries[..|entries|] == entries;
          ProcessKeepsBalanceNonNegative(wallets, entries, t, w);
        }
      }
    }
  }

  /** The service object: the wallet table and the ledger table it appends to. */
  class LedgerService {
    var wallets: set<WalletId>
    var entries: seq<Entry>

    ghost predicate Valid()
      reads this
    {
      LedgerInvariant(wallets, entries)
    }

    /** A store holding the given wallets and no ledger rows yet. */
    constructor (wallets: set<WalletId>)
      ensures Valid()
      ensures this.wallets == wallets && entries == []
    {
      this.wallets := wallets;
      entries := [];
    }

    /** processTransaction, as one atomic unit of work against the store. */
    method ProcessTransaction(t: TxInput) returns (r: Outcome)
      requires Valid()
      modifies this`entries
      ensures Valid()
      ensures Step(r, entries) == Process(wallets, old(entries), t)
    {
      ProcessPreservesInvariant(wallets, entries, t);
      if t.txType == Spend && t.amount >= 0 {
        return Rejected(InvalidAmountSign(t.txType, t.amount));
      }
      if (t.txType == Topup || t.txType == Bonus) && t.amount <= 0 {
        return Rejected(InvalidAmountSign(t.txType, t.amount));
      }
      // findUniqueOrThrow on the wallet table
      if t.walletId !in wallets {
        return Rejected(WalletNotFound(t.walletId));
      }
      if t.txType == Spend {
        // the aggregate inside the unit of work; an empty sum reads as 0
        var currentBalance := Balance(entries, t.walletId);
        if currentBalance + t.amount < 0 {
          return Rejected(InsufficientFunds(currentBalance, -t.amount));
        }
      }
      var e := Entry(|entries|, t.walletId, t.amount, t.txType, t.referenceId, t.description);
      entries := entries + [e];
      r := Committed(e);
    }

    /** getBalance: reads the ledger only; an unknown wallet has balance 0. */
    method GetBalance(w: WalletId) returns (b: int)
      ensures b == Balance(entries, w)
      ensures b == SumAmounts(Matching(entries, w))
    {
      BalanceIsSumOfMatching(entries, w);
      b := Balance(entries, w);
    }
  }
}
