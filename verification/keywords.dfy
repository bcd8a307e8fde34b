/**
  The classifier's fixed rule tables (app.py lines 42-47 and 76-85): three intent
  keyword lists and the ordered category table. Order matters only where the
  classifier takes the first hit; duplicates are kept as written.
 */
module Keywords {

  /** The closed set of categories a classification can carry. */
  datatype Category =
    | Food | Transportation | Entertainment | Shopping | Bills | Rent | Income | Savings | Other
  {
    /** The label stored with a transaction. */
    function Name(): string {
      match this
      case Food => "Food"
      case Transportation => "Transportation"
      case Entertainment => "Entertainment"
      case Shopping => "Shopping"
      case Bills => "Bills"
      case Rent => "Rent"
      case Income => "Income"
      case Savings => "Savings"
      case Other => "Other"
    }
  }

  /** Words that mark a text as spending money. */
  const ExpenseWords: seq<string> :=
    ["spent", "paid", "cost", "bought", "purchase", "pay for", "charged", "gave"]
    + ["owe", "due", "bill", "rent", "trip", "gift", "date", "shopping"]
    + ["food", "restaurant", "groceries", "subscription", "fee", "ticket", "monthly", "credit"]
    + ["loan", "withdraw", "transfer to", "sent to", "donation", "donated", "contributed", "contribution"]
    + ["lost", "fine", "penalty", "parking", "transport", "bus", "train", "taxi"]
    + ["uber", "lyft", "gas", "fuel", "movie", "theatre", "concert", "game"]
    + ["entertainment", "store", "mall", "clothes", "clothing", "utility", "electricity", "water"]
    + ["internet", "phone", "housing", "apartment", "house"]

  /** Words that mark a text as money coming in. */
  const IncomeWords: seq<string> :=
    ["salary", "paycheck", "income", "earned", "received", "got paid", "deposit", "deposited"]
    + ["bonus", "refund", "reimbursement", "interest", "dividend", "won", "gifted", "prize"]
    + ["reward", "cashback", "transfer from", "received from", "allowance", "stipend", "scholarship", "grant"]
    + ["loan received", "payment from", "sold", "sale", "profit", "commission", "tips", "tip"]
    + ["wage", "income"]

  /** Words that mark a text as putting money towards savings. The source repeats
      this exact list as the keywords of the Savings category. */
  const SavingWords: seq<string> :=
    ["save", "saved", "put in", "put into", "added to", "add to", "deposit to", "deposited to"]
    + ["transfer to savings", "set aside", "set to", "put towards", "put toward", "contribute to", "contributed to", "fund"]
    + ["funded", "saving for", "saving towards", "saving to", "saving"]

  /** Category keywords, tried in this order; the first category with a hit wins. */
  const CategoryTable: seq<(Category, seq<string>)> := [
    (Food, ["food", "restaurant", "dinner", "lunch", "breakfast", "coffee", "meal", "groceries"]),
    (Transportation, ["transport", "bus", "train", "taxi", "uber", "lyft", "gas", "fuel"]),
    (Entertainment, ["movie", "theatre", "concert", "game", "entertainment"]),
    (Shopping, ["shopping", "store", "mall", "clothes", "clothing"]),
    (Bills, ["bill", "utility", "electricity", "water", "internet", "phone", "subscription", "fee"]),
    (Rent, ["rent", "housing", "apartment", "house"]),
    (Income, [
      "salary", "paycheck", "income", "earned", "received", "deposit", "bonus", "refund",
      "reimbursement", "interest", "dividend", "won", "gifted", "prize", "reward", "cashback",
      "allowance", "stipend", "scholarship", "grant", "loan received", "payment from", "sold",
      "sale", "profit", "commission", "tips", "tip", "wage"]),
    (Savings, SavingWords)]

  /** The synthetic goal a saving is booked to when no known goal is named. */
  const GeneralSavings: string := "General Savings"
}
