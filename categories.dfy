/**
 * Category detection (`detect_category` in final.py): a case-insensitive
 * substring search over the three labels in a fixed order, falling back to
 * approximate matching only when no label occurs.
 *
 * The approximate matcher (`difflib.get_close_matches` with n=1 and cutoff
 * 0.6) is a parameter `closeMatch`: it is given the lower-cased input and
 * answers one of the candidate labels or nothing.
 */
module Categories {
  import opened Wrappers
  import opened Text

  /** The closed set of data categories the portal serves. */
  datatype Category = Bank | SmartCity | Hospital

  /** The label of a category, as the user types it and as the file table keys it. */
  function Label(c: Category): string {
    match c
    case Bank => "bank"
    case SmartCity => "smart city"
    case Hospital => "hospital"
  }

  /** The order in which the labels are tried; the first hit wins. */
  const SearchOrder: seq<Category> := [Bank, SmartCity, Hospital]

  /** Every label is already lower case. */
  lemma LabelIsLowerCase(c: Category)
    ensures Lower(Label(c)) == Label(c)
  {
    LowerOfLowerCase(Label(c));
  }

  /**
   * Reference definition of detection: the first label, in search order,
   * that occurs in the lower-cased input; otherwise whatever the approximate
   * matcher answers for the lower-cased input.
   */
  function Detected(userInput: string, closeMatch: string -> Option<Category>): Option<Category> {
    var lowered := Lower(userInput);
    if Contains(lowered, Label(Bank)) then Some(Bank)
    else if Contains(lowered, Label(SmartCity)) then Some(SmartCity)
    else if Contains(lowered, Label(Hospital)) then Some(Hospital)
    else closeMatch(lowered)
  }

  /** No label occurs in the lower-cased input. */
  predicate NoLabelIn(lowered: string) {
    forall c: Category :: !Contains(lowered, Label(c))
  }

  /** The linear search with early return that the portal runs. */
  method DetectCategory(userInput: string, closeMatch: string -> Option<Category>) returns (r: Option<Category>)
    ensures r == Detected(userInput, closeMatch)
  {
    var lowered := Lower(userInput);
    for i := 0 to |SearchOrder|
      invariant forall j :: 0 <= j < i ==> !Contains(lowered, Label(SearchOrder[j]))
    {
      if Contains(lowered, Label(SearchOrder[i])) {
        FirstLabelWins(userInput, closeMatch, i);
        return Some(SearchOrder[i]);
      }
    }
    assert !Contains(lowered, Label(SearchOrder[0])) && !Contains(lowered, Label(SearchOrder[1]))
        && !Contains(lowered, Label(SearchOrder[2]));
    return closeMatch(lowered);
  }

  /**
   * List order decides: the category at position `k` of the search order is
   * the answer whenever its label occurs and no earlier label does.
   */
  lemma FirstLabelWins(userInput: string, closeMatch: string -> Option<Category>, k: nat)
    requires k < |SearchOrder|
    requires Contains(Lower(userInput), Label(SearchOrder[k]))
    requires forall j :: 0 <= j < k ==> !Contains(Lower(userInput), Label(SearchOrder[j]))
    ensures Detected(userInput, closeMatch) == Some(SearchOrder[k])
  {
    var lowered := Lower(userInput);
    if k == 0 {
    } else if k == 1 {
      assert !Contains(lowered, Label(SearchOrder[0]));
    } else {
      assert !Contains(lowered, Label(SearchOrder[0])) && !Contains(lowered, Label(SearchOrder[1]));
    }
  }

  /** An input whose lower-case form contains "bank" is about the bank, whatever else it says. */
  lemma BankAlwaysWins(userInput: string, closeMatch: string -> Option<Category>)
    requires Contains(Lower(userInput), "bank")
    ensures Detected(userInput, closeMatch) == Some(Bank)
  {
    FirstLabelWins(userInput, closeMatch, 0);
  }

  /**
   * Every answer is justified: either its label occurs in the lower-cased
   * input, or no label occurs and the approximate matcher gave it.
   */
  lemma DetectedIsJustified(userInput: string, closeMatch: string -> Option<Category>, c: Category)
    requires Detected(userInput, closeMatch) == Some(c)
    ensures Contains(Lower(userInput), Label(c))
         || (NoLabelIn(Lower(userInput)) && closeMatch(Lower(userInput)) == Some(c))
  {
  }

  /**
   * The approximate matcher is consulted only when no label occurs: when one
   * does, any two matchers give the same answer, and otherwise the answer is
   * exactly the matcher's.
   */
  lemma FallbackOnlyWithoutLabel(userInput: string, f: string -> Option<Category>, g: string -> Option<Category>)
    ensures !NoLabelIn(Lower(userInput)) ==> Detected(userInput, f) == Detected(userInput, g)
    ensures NoLabelIn(Lower(userInput)) ==> Detected(userInput, f) == f(Lower(userInput))
  {
    var lowered := Lower(userInput);
    if !NoLabelIn(lowered) {
      var c: Category :| Contains(lowered, Label(c));
      assert c == Bank || c == SmartCity || c == Hospital;
    } else {
      assert !Contains(lowered, Label(Bank)) && !Contains(lowered, Label(SmartCity)) && !Contains(lowered, Label(Hospital));
    }
  }

  /** Detection reads only the lower-cased input: inputs that differ only in case agree. */
  lemma DetectionIgnoresCase(s: string, t: string, closeMatch: string -> Option<Category>)
    requires SameIgnoringCase(s, t)
    ensures Detected(s, closeMatch) == Detected(t, closeMatch)
  {
    LowerSameIgnoringCase(s, t);
  }

  /** Detecting on the lower-cased input gives the same answer as on the input. */
  lemma DetectionOfLowered(s: string, closeMatch: string -> Option<Category>)
    ensures Detected(Lower(s), closeMatch) == Detected(s, closeMatch)
  {
    LowerIdempotent(s);
  }

  /** The example from the query box: "Get Smart City data" asks for the smart-city data. */
  lemma SmartCityExample(closeMatch: string -> Option<Category>)
    ensures Detected("Get Smart City data", closeMatch) == Some(SmartCity)
  {
    var query := "Get Smart City data";
    LowerAvoids(query, 'b');
    NotContainedWithoutFirstChar(Lower(query), Label(Bank));
    SmartCityOccurs(query);
  }

  /** "Get Smart City data" lower-cased holds "smart city" from position 4. */
  lemma SmartCityOccurs(query: string)
    requires query == "Get Smart City data"
    ensures Contains(Lower(query), Label(SmartCity))
  {
    LowerSlice(query, 4, 14);
    assert query[4..14] == "Smart City";
    assert Lower("Smart City") == "smart city";
    assert Lower(query)[4..4 + |Label(SmartCity)|] == Label(SmartCity);
    assert OccursAt(Lower(query), Label(SmartCity), 4);
  }

  /** A query naming no label, such as "asdkjasd", is left to the approximate matcher. */
  lemma GibberishExample(closeMatch: string -> Option<Category>)
    ensures Detected("asdkjasd", closeMatch) == closeMatch("asdkjasd")
  {
    LowerOfLowerCase("asdkjasd");
    NotContainedWithoutFirstChar("asdkjasd", "bank");
    assert !Contains("asdkjasd", "smart city");
    NotContainedWithoutFirstChar("asdkjasd", "hospital");
  }
}
