/**
 * How a source account's name becomes the key it is matched under: the
 * owning budget's initials as a prefix, added only when the name does not
 * already carry it, then lower-cased (app.py lines 45 to 55).
 */
module Naming {
  import opened Text

  /**
   * The budget's disambiguating prefix: the first character of every
   * whitespace-separated word of its name, then one space.
   */
  function Prefix(budgetName: string): (p: string) {
    Initials(Words(budgetName)) + " "
  }

  /**
   * The prefix has one character per word plus the space, and the characters
   * before the space are exactly those that start a whitespace-delimited run
   * of the budget name.
   */
  lemma PrefixShape(budgetName: string)
    ensures |Prefix(budgetName)| == |Words(budgetName)| + 1
    ensures Prefix(budgetName)[|Words(budgetName)|] == ' '
    ensures Prefix(budgetName)[..|Words(budgetName)|] == WordStarts(budgetName, true)
  {
    InitialsAreWordStarts(budgetName);
    assert Prefix(budgetName)[..|Words(budgetName)|] == Initials(Words(budgetName));
  }

  /**
   * A source account's name with the prefix added unless the prefix already
   * occurs in it (a case-sensitive substring test on the raw name).
   */
  function Normalize(prefix: string, name: string): (normalized: string) {
    if Contains(name, prefix) then name else prefix + name
  }

  /**
   * The normalised name always contains the prefix; it is the raw name
   * exactly when the raw name already contained the prefix, and otherwise it
   * is the prefix followed by the raw name, which is always kept as a suffix.
   */
  lemma NormalizeSpec(prefix: string, name: string)
    ensures Contains(Normalize(prefix, name), prefix)
    ensures Normalize(prefix, name) == name <==> Contains(name, prefix)
    ensures !Contains(name, prefix) ==> Normalize(prefix, name) == prefix + name
    ensures var r := Normalize(prefix, name); |r| >= |name| && r[|r| - |name|..] == name
  {
    if !Contains(name, prefix) {
      ContainsSelfPrefixed(prefix, name);
      assert prefix != [] by {
        if prefix == [] { assert OccursAt(name, prefix, 0); }
      }
    }
  }

  /** The key a source account is recorded under. */
  function Key(prefix: string, name: string): (key: string) {
    Lower(Normalize(prefix, name))
  }

  /** Normalising twice is normalising once: an already prefixed name is left alone. */
  lemma NormalizeIdempotent(prefix: string, name: string)
    ensures Normalize(prefix, Normalize(prefix, name)) == Normalize(prefix, name)
  {
    NormalizeSpec(prefix, name);
  }

  /**
   * Giving an account the prefixed name by hand does not change its key:
   * "Checking" and "BA Checking" in budget "Bank A" meet under one key.
   */
  lemma KeyOfPrefixedName(prefix: string, name: string)
    requires !Contains(name, prefix)
    ensures Key(prefix, prefix + name) == Key(prefix, name)
  {
    ContainsSelfPrefixed(prefix, name);
  }

  /** Every key carries the lower-cased prefix of its budget. */
  lemma KeyContainsPrefix(prefix: string, name: string)
    ensures Contains(Key(prefix, name), Lower(prefix))
  {
    NormalizeSpec(prefix, name);
    LowerKeepsContains(Normalize(prefix, name), prefix);
  }

  /**
   * A one-word budget name still contributes only its initial: "Savings"
   * gives "S ", not "Savings ".
   */
  lemma OneWordPrefix(budgetName: string)
    requires budgetName != [] && NoSpace(budgetName)
    ensures Prefix(budgetName) == [budgetName[0], ' ']
  {
    WholeWord(budgetName);
    assert budgetName[|budgetName|..] == [];
    assert Words(budgetName) == [budgetName];
  }
}
