/**
  Worked examples of `_standardize`. In each, exactly one row of the table
  fires, once; every other row is shown not to fire by evidence that its
  pattern cannot occur in the text it is applied to (a missing character, or
  two characters that never stand at the pattern's distance).
 */
module PersonaExamples {
  import opened PyStr
  import opened Persona

  /** Lower-casing and stripping `u + v + p`, where `v` has no upper-case
      letter and `p` is a run of trailing punctuation, leaves `lower(u) + v`. */
  lemma Prepared(u: string, v: string, p: string)
    requires NoUpper(v)
    requires forall c :: c in p ==> c in TrailingPunctuation
    requires EndsOutside(Lower(u) + v, TrailingPunctuation)
    ensures RStrip(Lower(u + v + p), TrailingPunctuation) == Lower(u) + v
  {
    assert NoUpper(p) by {
      forall c | c in p
        ensures !IsUpper(c)
      {
        assert c in TrailingPunctuation;
      }
    }
    LowerConcat(u + v, p);
    LowerConcat(u, v);
    LowerKeeps(v);
    LowerKeeps(p);
    assert Lower(u + v + p) == (Lower(u) + v) + p;
    RStripRun(Lower(u) + v, p, TrailingPunctuation);
  }

  /** One step of the table: the first row, then the rest. */
  lemma ApplyRulesUnroll(s: string, rules: seq<Rule>)
    requires rules != []
    ensures ApplyRules(s, rules) == ApplyRules(ReplaceAll(s, rules[0].pattern, rules[0].replacement), rules[1..])
  {
  }

  /** Rows 0 to 2 of the table, written out. */
  lemma RowsZeroToTwo(s: string)
    ensures ApplyRules(s, Rules) ==
      ApplyRules(ReplaceAll(ReplaceAll(ReplaceAll(s, "i've", "i have"), "i ve", "i have"), "ive", "i have"), Rules[3..])
  {
    assert Rules[0] == Rule("i've", "i have") && Rules[1..] == Rules[1..];
    ApplyRulesUnroll(s, Rules);
    var x1 := ReplaceAll(s, "i've", "i have");
    assert Rules[1..][0] == Rule("i ve", "i have") && Rules[1..][1..] == Rules[2..];
    ApplyRulesUnroll(x1, Rules[1..]);
    var x2 := ReplaceAll(x1, "i ve", "i have");
    assert Rules[2..][0] == Rule("ive", "i have") && Rules[2..][1..] == Rules[3..];
    ApplyRulesUnroll(x2, Rules[2..]);
  }

  /** Rows 3 to 5 of the table, written out. */
  lemma RowsThreeToFive(s: string)
    ensures ApplyRules(s, Rules[3..]) ==
      ApplyRules(ReplaceAll(ReplaceAll(ReplaceAll(s, "i'm", "i am"), "i m", "i am"), "im", "i am"), Rules[6..])
  {
    assert Rules[3..][0] == Rule("i'm", "i am") && Rules[3..][1..] == Rules[4..];
    ApplyRulesUnroll(s, Rules[3..]);
    var x4 := ReplaceAll(s, "i'm", "i am");
    assert Rules[4..][0] == Rule("i m", "i am") && Rules[4..][1..] == Rules[5..];
    ApplyRulesUnroll(x4, Rules[4..]);
    var x5 := ReplaceAll(x4, "i m", "i am");
    assert Rules[5..][0] == Rule("im", "i am") && Rules[5..][1..] == Rules[6..];
    ApplyRulesUnroll(x5, Rules[5..]);
  }

  /** Rows 6 to 8 of the table, written out. */
  lemma RowsSixToEight(s: string)
    ensures ApplyRules(s, Rules[6..]) ==
      ApplyRules(ReplaceAll(ReplaceAll(ReplaceAll(s, "i'll", "i will"), "i ll", "i will"), "don't", "do not"), Rules[9..])
  {
    assert Rules[6..][0] == Rule("i'll", "i will") && Rules[6..][1..] == Rules[7..];
    ApplyRulesUnroll(s, Rules[6..]);
    var x7 := ReplaceAll(s, "i'll", "i will");
    assert Rules[7..][0] == Rule("i ll", "i will") && Rules[7..][1..] == Rules[8..];
    ApplyRulesUnroll(x7, Rules[7..]);
    var x8 := ReplaceAll(x7, "i ll", "i will");
    assert Rules[8..][0] == Rule("don't", "do not") && Rules[8..][1..] == Rules[9..];
    ApplyRulesUnroll(x8, Rules[8..]);
  }

  /** Rows 9 to 11 of the table, written out. */
  lemma RowsNineToEleven(s: string)
    ensures ApplyRules(s, Rules[9..]) ==
      ApplyRules(ReplaceAll(ReplaceAll(ReplaceAll(s, "don t", "do not"), "dont", "do not"), "can't", "cannot"), Rules[12..])
  {
    assert Rules[9..][0] == Rule("don t", "do not") && Rules[9..][1..] == Rules[10..];
    ApplyRulesUnroll(s, Rules[9..]);
    var x10 := ReplaceAll(s, "don t", "do not");
    assert Rules[10..][0] == Rule("dont", "do not") && Rules[10..][1..] == Rules[11..];
    ApplyRulesUnroll(x10, Rules[10..]);
    var x11 := ReplaceAll(x10, "dont", "do not");
    assert Rules[11..][0] == Rule("can't", "cannot") && Rules[11..][1..] == Rules[12..];
    ApplyRulesUnroll(x11, Rules[11..]);
  }

  /** Rows 12 to 14 of the table, written out. */
  lemma RowsTwelveToFourteen(s: string)
    ensures ApplyRules(s, Rules[12..]) ==
      ReplaceAll(ReplaceAll(ReplaceAll(s, "can t", "cannot"), "cant", "cannot"), " s", "'s")
  {
    assert Rules[12..][0] == Rule("can t", "cannot") && Rules[12..][1..] == Rules[13..];
    ApplyRulesUnroll(s, Rules[12..]);
    var x13 := ReplaceAll(s, "can t", "cannot");
    assert Rules[13..][0] == Rule("cant", "cannot") && Rules[13..][1..] == Rules[14..];
    ApplyRulesUnroll(x13, Rules[13..]);
    var x14 := ReplaceAll(x13, "cant", "cannot");
    assert Rules[14..][0] == Rule(" s", "'s") && Rules[14..][1..] == Rules[15..];
    ApplyRulesUnroll(x14, Rules[14..]);
    assert Rules[15..] == [];
  }

  /** The table on a text of the shape the example `ReadManyBooks` reaches after
      lower-casing and stripping: only row 0 fires, and the evidence in the
      preconditions keeps every other row from firing. */
  lemma ReadManyBooksRows(b: string)
    requires Excludes(b, "i've", 0, 0)
    requires Excludes("i have" + b, "i ve", 1, 2)
    requires Excludes("i have" + b, "ive", 0, 1)
    requires Excludes("i have" + b, "i'm", 1, 1)
    requires Excludes("i have" + b, "i m", 0, 2)
    requires Excludes("i have" + b, "im", 0, 1)
    requires Excludes("i have" + b, "i'll", 1, 1)
    requires Excludes("i have" + b, "i ll", 2, 2)
    requires Excludes("i have" + b, "don't", 3, 3)
    requires Excludes("i have" + b, "don t", 4, 4)
    requires Excludes("i have" + b, "dont", 3, 3)
    requires Excludes("i have" + b, "can't", 0, 0)
    requires Excludes("i have" + b, "can t", 0, 0)
    requires Excludes("i have" + b, "cant", 0, 0)
    requires Excludes("i have" + b, " s", 0, 1)
    ensures ApplyRules("i've" + b, Rules) == "i have" + b
  {
    var x0, x1 := "i've" + b, "i have" + b;
    assert "" + "i've" + b == x0 && "" + "i have" + b == x1;
    RowsZeroToTwo(x0);
    ExcludesAbsent(b, "i've", 0, 0);
    ReplaceOnce("", b, "i've", "i have");
    ReplaceExcluded(x1, "i ve", "i have", 1, 2);
    ReplaceExcluded(x1, "ive", "i have", 0, 1);
    RowsThreeToFive(x1);
    ReplaceExcluded(x1, "i'm", "i am", 1, 1);
    ReplaceExcluded(x1, "i m", "i am", 0, 2);
    ReplaceExcluded(x1, "im", "i am", 0, 1);
    RowsSixToEight(x1);
    ReplaceExcluded(x1, "i'll", "i will", 1, 1);
    ReplaceExcluded(x1, "i ll", "i will", 2, 2);
    ReplaceExcluded(x1, "don't", "do not", 3, 3);
    RowsNineToEleven(x1);
    ReplaceExcluded(x1, "don t", "do not", 4, 4);
    ReplaceExcluded(x1, "dont", "do not", 3, 3);
    ReplaceExcluded(x1, "can't", "cannot", 0, 0);
    RowsTwelveToFourteen(x1);
    ReplaceExcluded(x1, "can t", "cannot", 0, 0);
    ReplaceExcluded(x1, "cant", "cannot", 0, 0);
    ReplaceExcluded(x1, " s", "'s", 0, 1);
  }

  /** Lower-casing and stripping the example `ReadManyBooks`. */
  lemma ReadManyBooksStripped()
    ensures RStrip(Lower("I've" + " read many books" + "."), TrailingPunctuation) == "i've" + " read many books"
  {
    Prepared("I've", " read many books", ".");
    assert Lower("I've") == "i've";
  }

  /** The evidence the rows lemma of the example `ReadManyBooks` asks for, rows 0 to 7. */
  lemma ReadManyBooksEvidenceFirst()
    ensures Excludes(" read many books", "i've", 0, 0)
    ensures Excludes("i have" + " read many books", "i ve", 1, 2)
    ensures Excludes("i have" + " read many books", "ive", 0, 1)
    ensures Excludes("i have" + " read many books", "i'm", 1, 1)
    ensures Excludes("i have" + " read many books", "i m", 0, 2)
    ensures Excludes("i have" + " read many books", "im", 0, 1)
    ensures Excludes("i have" + " read many books", "i'll", 1, 1)
    ensures Excludes("i have" + " read many books", "i ll", 2, 2)
  {
  }

  /** The evidence the rows lemma of the example `ReadManyBooks` asks for, rows 8 to 14. */
  lemma ReadManyBooksEvidenceLast()
    ensures Excludes("i have" + " read many books", "don't", 3, 3)
    ensures Excludes("i have" + " read many books", "don t", 4, 4)
    ensures Excludes("i have" + " read many books", "dont", 3, 3)
    ensures Excludes("i have" + " read many books", "can't", 0, 0)
    ensures Excludes("i have" + " read many books", "can t", 0, 0)
    ensures Excludes("i have" + " read many books", "cant", 0, 0)
    ensures Excludes("i have" + " read many books", " s", 0, 1)
  {
  }

  /** `_standardize("I've read many books.")` is `i have read many books`. */
  lemma ReadManyBooks()
    ensures Standardized("I've" + " read many books" + ".") == "i have" + " read many books"
  {
    // The pieces of the input concatenate to `I've read many books.`.
    ReadManyBooksStripped();
    ReadManyBooksEvidenceFirst();
    ReadManyBooksEvidenceLast();
    ReadManyBooksRows(" read many books");
  }

  /** The table on a text of the shape the example `DigitalAssistant` reaches after
      lower-casing and stripping: only row 3 fires, and the evidence in the
      preconditions keeps every other row from firing. */
  lemma DigitalAssistantRows(b: string)
    requires Excludes("i'm" + b, "i've", 2, 2)
    requires Excludes("i'm" + b, "i ve", 2, 2)
    requires Excludes("i'm" + b, "ive", 1, 1)
    requires Excludes(b, "i'm", 1, 1)
    requires Excludes("i am" + b, "i m", 1, 2)
    requires Excludes("i am" + b, "im", 0, 1)
    requires Excludes("i am" + b, "i'll", 1, 1)
    requires Excludes("i am" + b, "i ll", 1, 2)
    requires Excludes("i am" + b, "don't", 1, 1)
    requires Excludes("i am" + b, "don t", 1, 1)
    requires Excludes("i am" + b, "dont", 1, 1)
    requires Excludes("i am" + b, "can't", 0, 0)
    requires Excludes("i am" + b, "can t", 0, 0)
    requires Excludes("i am" + b, "cant", 0, 0)
    requires Excludes("i am" + b, " s", 0, 1)
    ensures ApplyRules("i'm" + b, Rules) == "i am" + b
  {
    var x0, x1 := "i'm" + b, "i am" + b;
    assert "" + "i'm" + b == x0 && "" + "i am" + b == x1;
    RowsZeroToTwo(x0);
    ReplaceExcluded(x0, "i've", "i have", 2, 2);
    ReplaceExcluded(x0, "i ve", "i have", 2, 2);
    ReplaceExcluded(x0, "ive", "i have", 1, 1);
    RowsThreeToFive(x0);
    ExcludesAbsent(b, "i'm", 1, 1);
    ReplaceOnce("", b, "i'm", "i am");
    ReplaceExcluded(x1, "i m", "i am", 1, 2);
    ReplaceExcluded(x1, "im", "i am", 0, 1);
    RowsSixToEight(x1);
    ReplaceExcluded(x1, "i'll", "i will", 1, 1);
    ReplaceExcluded(x1, "i ll", "i will", 1, 2);
    ReplaceExcluded(x1, "don't", "do not", 1, 1);
    RowsNineToEleven(x1);
    ReplaceExcluded(x1, "don t", "do not", 1, 1);
    ReplaceExcluded(x1, "dont", "do not", 1, 1);
    ReplaceExcluded(x1, "can't", "cannot", 0, 0);
    RowsTwelveToFourteen(x1);
    ReplaceExcluded(x1, "can t", "cannot", 0, 0);
    ReplaceExcluded(x1, "cant", "cannot", 0, 0);
    ReplaceExcluded(x1, " s", "'s", 0, 1);
  }

  /** Lower-casing and stripping the example `DigitalAssistant`. */
  lemma DigitalAssistantStripped()
    ensures RStrip(Lower("I'm" + " a digital assistant" + "!"), TrailingPunctuation) == "i'm" + " a digital assistant"
  {
    Prepared("I'm", " a digital assistant", "!");
    assert Lower("I'm") == "i'm";
  }

  /** The evidence the rows lemma of the example `DigitalAssistant` asks for, rows 0 to 7. */
  lemma DigitalAssistantEvidenceFirst()
    ensures Excludes("i'm" + " a digital assistant", "i've", 2, 2)
    ensures Excludes("i'm" + " a digital assistant", "i ve", 2, 2)
    ensures Excludes("i'm" + " a digital assistant", "ive", 1, 1)
    ensures Excludes(" a digital assistant", "i'm", 1, 1)
    ensures Excludes("i am" + " a digital assistant", "i m", 1, 2)
    ensures Excludes("i am" + " a digital assistant", "im", 0, 1)
    ensures Excludes("i am" + " a digital assistant", "i'll", 1, 1)
    ensures Excludes("i am" + " a digital assistant", "i ll", 1, 2)
  {
  }

  /** The evidence the rows lemma of the example `DigitalAssistant` asks for, rows 8 to 14. */
  lemma DigitalAssistantEvidenceLast()
    ensures Excludes("i am" + " a digital assistant", "don't", 1, 1)
    ensures Excludes("i am" + " a digital assistant", "don t", 1, 1)
    ensures Excludes("i am" + " a digital assistant", "dont", 1, 1)
    ensures Excludes("i am" + " a digital assistant", "can't", 0, 0)
    ensures Excludes("i am" + " a digital assistant", "can t", 0, 0)
    ensures Excludes("i am" + " a digital assistant", "cant", 0, 0)
    ensures Excludes("i am" + " a digital assistant", " s", 0, 1)
  {
  }

  /** `_standardize("I'm a digital assistant!")` is `i am a digital assistant`. */
  lemma DigitalAssistant()
    ensures Standardized("I'm" + " a digital assistant" + "!") == "i am" + " a digital assistant"
  {
    // The pieces of the input concatenate to `I'm a digital assistant!`.
    DigitalAssistantStripped();
    DigitalAssistantEvidenceFirst();
    DigitalAssistantEvidenceLast();
    DigitalAssistantRows(" a digital assistant");
  }

  /** The table on a text of the shape the example `DoNotYouDare` reaches after
      lower-casing and stripping: only row 8 fires, and the evidence in the
      preconditions keeps every other row from firing. */
  lemma DoNotYouDareRows(b: string)
    requires Excludes("don't" + b, "i've", 0, 0)
    requires Excludes("don't" + b, "i ve", 0, 0)
    requires Excludes("don't" + b, "ive", 0, 0)
    requires Excludes("don't" + b, "i'm", 0, 0)
    requires Excludes("don't" + b, "i m", 0, 0)
    requires Excludes("don't" + b, "im", 0, 0)
    requires Excludes("don't" + b, "i'll", 0, 0)
    requires Excludes("don't" + b, "i ll", 0, 0)
    requires Excludes(b, "don't", 2, 2)
    requires Excludes("do not" + b, "don t", 1, 2)
    requires Excludes("do not" + b, "dont", 1, 2)
    requires Excludes("do not" + b, "can't", 0, 0)
    requires Excludes("do not" + b, "can t", 0, 0)
    requires Excludes("do not" + b, "cant", 0, 0)
    requires Excludes("do not" + b, " s", 1, 1)
    ensures ApplyRules("don't" + b, Rules) == "do not" + b
  {
    var x0, x1 := "don't" + b, "do not" + b;
    assert "" + "don't" + b == x0 && "" + "do not" + b == x1;
    RowsZeroToTwo(x0);
    ReplaceExcluded(x0, "i've", "i have", 0, 0);
    ReplaceExcluded(x0, "i ve", "i have", 0, 0);
    ReplaceExcluded(x0, "ive", "i have", 0, 0);
    RowsThreeToFive(x0);
    ReplaceExcluded(x0, "i'm", "i am", 0, 0);
    ReplaceExcluded(x0, "i m", "i am", 0, 0);
    ReplaceExcluded(x0, "im", "i am", 0, 0);
    RowsSixToEight(x0);
    ReplaceExcluded(x0, "i'll", "i will", 0, 0);
    ReplaceExcluded(x0, "i ll", "i will", 0, 0);
    ExcludesAbsent(b, "don't", 2, 2);
    ReplaceOnce("", b, "don't", "do not");
    RowsNineToEleven(x1);
    ReplaceExcluded(x1, "don t", "do not", 1, 2);
    ReplaceExcluded(x1, "dont", "do not", 1, 2);
    ReplaceExcluded(x1, "can't", "cannot", 0, 0);
    RowsTwelveToFourteen(x1);
    ReplaceExcluded(x1, "can t", "cannot", 0, 0);
    ReplaceExcluded(x1, "cant", "cannot", 0, 0);
    ReplaceExcluded(x1, " s", "'s", 1, 1);
  }

  /** Lower-casing and stripping the example `DoNotYouDare`. */
  lemma DoNotYouDareStripped()
    ensures RStrip(Lower("Don't" + " you dare" + "??"), TrailingPunctuation) == "don't" + " you dare"
  {
    Prepared("Don't", " you dare", "??");
    assert Lower("Don't") == "don't";
  }

  /** The evidence the rows lemma of the example `DoNotYouDare` asks for. */
  lemma DoNotYouDareEvidence()
    ensures Excludes("don't" + " you dare", "i've", 0, 0)
    ensures Excludes("don't" + " you dare", "i ve", 0, 0)
    ensures Excludes("don't" + " you dare", "ive", 0, 0)
    ensures Excludes("don't" + " you dare", "i'm", 0, 0)
    ensures Excludes("don't" + " you dare", "i m", 0, 0)
    ensures Excludes("don't" + " you dare", "im", 0, 0)
    ensures Excludes("don't" + " you dare", "i'll", 0, 0)
    ensures Excludes("don't" + " you dare", "i ll", 0, 0)
    ensures Excludes(" you dare", "don't", 2, 2)
    ensures Excludes("do not" + " you dare", "don t", 1, 2)
    ensures Excludes("do not" + " you dare", "dont", 1, 2)
    ensures Excludes("do not" + " you dare", "can't", 0, 0)
    ensures Excludes("do not" + " you dare", "can t", 0, 0)
    ensures Excludes("do not" + " you dare", "cant", 0, 0)
    ensures Excludes("do not" + " you dare", " s", 1, 1)
  {
  }

  /** `_standardize("Don't you dare??")` is `do not you dare`. */
  lemma DoNotYouDare()
    ensures Standardized("Don't" + " you dare" + "??") == "do not" + " you dare"
  {
    // The pieces of the input concatenate to `Don't you dare??`.
    DoNotYouDareStripped();
    DoNotYouDareEvidence();
    DoNotYouDareRows(" you dare");
  }

  /** The table on a text of the shape the example `Alive` reaches after
      lower-casing and stripping: only row 2 fires, and the evidence in the
      preconditions keeps every other row from firing. */
  lemma AliveRows(a: string)
    requires Excludes(a + "ive", "i've", 1, 1)
    requires Excludes(a + "ive", "i ve", 1, 1)
    requires "ive"[0] !in a
    requires Excludes(a + "i have", "i'm", 1, 1)
    requires Excludes(a + "i have", "i m", 2, 2)
    requires Excludes(a + "i have", "im", 1, 1)
    requires Excludes(a + "i have", "i'll", 1, 1)
    requires Excludes(a + "i have", "i ll", 1, 2)
    requires Excludes(a + "i have", "don't", 0, 0)
    requires Excludes(a + "i have", "don t", 0, 0)
    requires Excludes(a + "i have", "dont", 0, 0)
    requires Excludes(a + "i have", "can't", 0, 0)
    requires Excludes(a + "i have", "can t", 0, 0)
    requires Excludes(a + "i have", "cant", 0, 0)
    requires Excludes(a + "i have", " s", 1, 1)
    ensures ApplyRules(a + "ive", Rules) == a + "i have"
  {
    var x0, x1 := a + "ive", a + "i have";
    assert a + "ive" + "" == x0 && a + "i have" + "" == x1;
    assert Excludes("", "ive", 0, 0);
    RowsZeroToTwo(x0);
    ReplaceExcluded(x0, "i've", "i have", 1, 1);
    ReplaceExcluded(x0, "i ve", "i have", 1, 1);
    ExcludesAbsent("", "ive", 0, 0);
    ReplaceOnce(a, "", "ive", "i have");
    RowsThreeToFive(x1);
    ReplaceExcluded(x1, "i'm", "i am", 1, 1);
    ReplaceExcluded(x1, "i m", "i am", 2, 2);
    ReplaceExcluded(x1, "im", "i am", 1, 1);
    RowsSixToEight(x1);
    ReplaceExcluded(x1, "i'll", "i will", 1, 1);
    ReplaceExcluded(x1, "i ll", "i will", 1, 2);
    ReplaceExcluded(x1, "don't", "do not", 0, 0);
    RowsNineToEleven(x1);
    ReplaceExcluded(x1, "don t", "do not", 0, 0);
    ReplaceExcluded(x1, "dont", "do not", 0, 0);
    ReplaceExcluded(x1, "can't", "cannot", 0, 0);
    RowsTwelveToFourteen(x1);
    ReplaceExcluded(x1, "can t", "cannot", 0, 0);
    ReplaceExcluded(x1, "cant", "cannot", 0, 0);
    ReplaceExcluded(x1, " s", "'s", 1, 1);
  }

  /** Lower-casing and stripping the example `Alive`. */
  lemma AliveStripped()
    ensures RStrip(Lower("al" + "ive"), TrailingPunctuation) == "al" + "ive"
  {
    LowerKeeps("al" + "ive");
    RStripRun("al" + "ive", "", TrailingPunctuation);
    assert "al" + "ive" + "" == "al" + "ive";
  }

  /** The evidence the rows lemma of the example `Alive` asks for. */
  lemma AliveEvidence()
    ensures Excludes("al" + "ive", "i've", 1, 1)
    ensures Excludes("al" + "ive", "i ve", 1, 1)
    ensures "ive"[0] !in "al"
    ensures Excludes("al" + "i have", "i'm", 1, 1)
    ensures Excludes("al" + "i have", "i m", 2, 2)
    ensures Excludes("al" + "i have", "im", 1, 1)
    ensures Excludes("al" + "i have", "i'll", 1, 1)
    ensures Excludes("al" + "i have", "i ll", 1, 2)
    ensures Excludes("al" + "i have", "don't", 0, 0)
    ensures Excludes("al" + "i have", "don t", 0, 0)
    ensures Excludes("al" + "i have", "dont", 0, 0)
    ensures Excludes("al" + "i have", "can't", 0, 0)
    ensures Excludes("al" + "i have", "can t", 0, 0)
    ensures Excludes("al" + "i have", "cant", 0, 0)
    ensures Excludes("al" + "i have", " s", 1, 1)
  {
  }

  /** `_standardize("alive")` is `ali have`. */
  lemma Alive()
    ensures Standardized("al" + "ive") == "al" + "i have"
  {
    // The pieces of the input concatenate to `alive`.
    AliveStripped();
    AliveEvidence();
    AliveRows("al");
  }
}
