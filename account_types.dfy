/** The constant table of account types of model/account-types.go. */
module AccountTypeTable {

  /** Display label, root flag, polarity flag and the labels of a positive and a negative value. */
  datatype AccountType = AccountType(displayLabel: string, root: bool, invertValues: bool, plusLabel: string, minusLabel: string)

  const AccountTypes: map<string, AccountType> := map[
    "ROOT" := AccountType("Root", true, false, "", ""),
    "LIABILITY" := AccountType("Liability", false, true, "Decrease", "Increase"),
    "ASSET" := AccountType("Asset", false, false, "Increase", "Decrease"),
    "RECEIVABLE" := AccountType("Receivible", false, false, "Increase", "Decrease"),
    "EXPENSE" := AccountType("Expense", false, false, "Expense", "Rebate"),
    "INCOME" := AccountType("Income", false, true, "Charge", "Income"),
    "EQUITY" := AccountType("Equity", false, true, "Decrease", "Increase"),
    "BANK" := AccountType("Bank", false, false, "Deposit", "Withdrawal"),
    "CASH" := AccountType("Cash", false, false, "Receive", "Spend"),
    "CREDIT" := AccountType("Credit", false, false, "Increase", "Decrease")
  ]

  /** The ten tags of the table. */
  lemma TenTags()
    ensures AccountTypes.Keys == {"ROOT", "LIABILITY", "ASSET", "RECEIVABLE", "EXPENSE", "INCOME", "EQUITY", "BANK", "CASH", "CREDIT"}
  {
    assert AccountTypes.Keys == {"ROOT", "LIABILITY", "ASSET", "RECEIVABLE", "EXPENSE", "INCOME", "EQUITY", "BANK", "CASH", "CREDIT"};
  }

  /**
   * Only ROOT is a root type and has empty labels; LIABILITY, INCOME and
   * EQUITY, and only they, invert values, and their labels are swapped.
   */
  lemma TableShape(tag: string)
    requires tag in AccountTypes
    ensures AccountTypes[tag].root <==> tag == "ROOT"
    ensures AccountTypes[tag].invertValues <==> tag in {"LIABILITY", "INCOME", "EQUITY"}
    ensures tag == "ROOT" <==> AccountTypes[tag].plusLabel == "" && AccountTypes[tag].minusLabel == ""
    ensures tag != "ROOT" ==> AccountTypes[tag].plusLabel != "" && AccountTypes[tag].minusLabel != ""
    ensures tag in {"LIABILITY", "EQUITY"} ==> AccountTypes[tag].plusLabel == "Decrease" && AccountTypes[tag].minusLabel == "Increase"
    ensures tag == "INCOME" ==> AccountTypes[tag].plusLabel == "Charge" && AccountTypes[tag].minusLabel == "Income"
  {
    TenTags();
  }
}
