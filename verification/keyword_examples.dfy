/**
  Keyword facts about the sample text "spent $42.50 on food": which keyword lists
  have a hit in it and which have none. Kept apart from the classifier so that each
  proof sees only the text primitives and the keyword tables.
 */
module KeywordExamples {
  import opened Text
  import opened Keywords

  /** "spent" is an expense word and "food" a keyword of the first table row. */
  lemma SpentOnFoodHits()
    ensures AnyOccurs("spent $42.50 on food", ExpenseWords)
    ensures AnyOccurs("spent $42.50 on food", CategoryTable[0].1)
  {
    var t := "spent $42.50 on food";
    assert OccursAt(t, "spent", 0) && OccursAt(t, "food", 16);
    ContainsIffOccurs(t, "spent");
    ContainsIffOccurs(t, "food");
    assert ExpenseWords[0] == "spent" && CategoryTable[0].1[0] == "food";
  }

  /** "set to" is the one saving word all of whose characters appear in the text; the
      text's only 's' is followed by 'p', so it does not occur either. */
  lemma SpentOnFoodLacksSetTo()
    ensures !Contains("spent $42.50 on food", "set to")
  {
    var t := "spent $42.50 on food";
    var w := "set to";
    forall i
      ensures !OccursAt(t, w, i)
    {
      if 0 <= i && i + |w| <= |t| {
        if i == 0 {
          assert t[i..i + |w|][1] == 'p';
        } else {
          assert t[i..i + |w|][0] == t[i] != 's';
        }
      }
    }
    ContainsIffOccurs(t, w);
  }

  /** Saving words 0-7 each hold an 'a', 'u' or 'i', which the text lacks. */
  lemma SpentOnFoodSavingsA()
    ensures forall k :: 0 <= k < 8 ==> !Contains("spent $42.50 on food", SavingWords[k])
  {
    var group := [
      "save", "saved", "put in", "put into", "added to", "add to", "deposit to", "deposited to"];
    assert forall k :: 0 <= k < 8 ==> SavingWords[k] == group[k];
    MissingCharsBlockEach("spent $42.50 on food", group, [1, 1, 1, 1, 0, 0, 5, 5]);
  }

  /** Saving words 8-15: a character the text lacks, or "set to". */
  lemma SpentOnFoodSavingsB()
    ensures forall k :: 8 <= k < 16 ==> !Contains("spent $42.50 on food", SavingWords[k])
  {
    var t := "spent $42.50 on food";
    var before := ["transfer to savings", "set aside"];
    var after := ["put towards", "put toward", "contribute to", "contributed to", "fund"];
    assert forall k :: 8 <= k < 16 ==> SavingWords[k] == (before + ["set to"] + after)[k - 8];
    MissingCharsBlockEach(t, before, [1, 4]);
    SpentOnFoodLacksSetTo();
    MissingCharsBlockEach(t, after, [1, 1, 0, 0, 1]);
  }

  /** Saving words 16-20 each hold a 'u' or an 'a', which the text lacks. */
  lemma SpentOnFoodSavingsC()
    ensures forall k :: 16 <= k < 21 ==> !Contains("spent $42.50 on food", SavingWords[k])
  {
    var group := ["funded", "saving for", "saving towards", "saving to", "saving"];
    assert forall k :: 16 <= k < 21 ==> SavingWords[k] == group[k - 16];
    MissingCharsBlockEach("spent $42.50 on food", group, [1, 1, 1, 1, 1]);
  }

  /** No saving word occurs in the text. */
  lemma SpentOnFoodNotSaving()
    ensures !AnyOccurs("spent $42.50 on food", SavingWords)
  {
    SpentOnFoodSavingsA();
    SpentOnFoodSavingsB();
    SpentOnFoodSavingsC();
    assert |SavingWords| == 21;
  }
}
