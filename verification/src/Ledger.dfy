/** The output ledger of arwen/contexts/output.go as values: accounts, merging and transfers. */
module Ledger {
  import opened Types
  import opened Sums

  const NEW_ACCOUNT := OutputAccount(None, 0, map[], [], 0)
  const NEW_OUTPUT := VMOutput(map[], [], [], Ok, [], 0, 0)

  function Ensure(accounts: Accounts, address: Address): Accounts {
    if address in accounts then accounts else accounts[address := NEW_ACCOUNT]
  }

  function Account(accounts: Accounts, address: Address): OutputAccount {
    if address in accounts then accounts[address] else NEW_ACCOUNT
  }

  function Censor(out: VMOutput): VMOutput {
    NEW_OUTPUT.(accounts := out.accounts)
  }

  function MergeAccount(left: OutputAccount, right: OutputAccount): OutputAccount {
    OutputAccount(
      if right.balance.Some? then right.balance else left.balance,
      right.delta,
      left.storage + right.storage,
      if |right.transfers| > |left.transfers| then left.transfers + right.transfers[|left.transfers|..]
      else left.transfers,
      right.gasUsed)
  }

  function MergeAccounts(left: Accounts, right: Accounts): Accounts {
    map x | x in left.Keys + right.Keys ::
      if x in right then MergeAccount(Account(left, x), right[x]) else left[x]
  }

  function Merge(left: VMOutput, right: VMOutput): VMOutput {
    VMOutput(MergeAccounts(left.accounts, right.accounts), left.returnData + right.returnData,
             left.logs + right.logs, right.code, right.message, right.gasRemaining, right.gasRefund)
  }

  /** The exact gas carried by a list of transfers. */
  function TransferGas(transfers: seq<OutputTransfer>): nat {
    if transfers == [] then 0
    else
      var last := transfers[|transfers| - 1];
      TransferGas(transfers[..|transfers| - 1]) + last.gasLimit + last.gasLocked
  }

  function Deltas(accounts: Accounts): map<Address, int> {
    map x | x in accounts :: accounts[x].delta
  }

  /** How much an account's balance has changed; one that is not recorded has not changed. */
  function DeltaOf(accounts: Accounts, x: Address): int {
    if x in accounts then accounts[x].delta else 0
  }

  /** The sum of all balance changes in the ledger. */
  ghost function TotalDelta(accounts: Accounts): int {
    SumMap(Deltas(accounts))
  }

  function Move(accounts: Accounts, sender: Address, destination: Address, value: int): Accounts {
    var a1 := Ensure(Ensure(accounts, sender), destination);
    var a2 := a1[sender := a1[sender].(delta := a1[sender].delta - value)];
    a2[destination := a2[destination].(delta := a2[destination].delta + value)]
  }

  function GasReport(accounts: Accounts): map<Address, int> {
    map x | x in accounts :: accounts[x].gasUsed
  }
}
