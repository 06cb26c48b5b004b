/** The stock-adjustment check run when the adjust-stock form is submitted:
    the typed amount must parse to a non-zero integer, and adding it to the
    item's quantity must not make the stock negative. */
module Adjustment {
  import opened Wrappers
  import opened IntParsing
  import opened Records
  import opened Stats

  datatype AdjustError = InvalidAmount | NegativeStock

  /** The text shown under the input for each error. */
  function Message(e: AdjustError): string {
    match e
    case InvalidAmount => "Please enter a valid, non-zero number."
    case NegativeStock => "Adjustment cannot result in negative stock."
  }

  /** The two early returns of the submit handler, in order; a success carries
      the amount passed on to the stock handler. */
  function ValidateAdjustment(quantity: int, adjustment: string): (r: Result<int, AdjustError>)
    ensures r.Success? ==> ParseInt(adjustment) == Some(r.value)
    ensures r.Success? ==> r.value != 0 && quantity + r.value >= 0
    ensures r == Failure(InvalidAmount) <==> ParseInt(adjustment) in {None, Some(0)}
    ensures r == Failure(NegativeStock) <==>
      ParseInt(adjustment).Some? && ParseInt(adjustment).value != 0 && quantity + ParseInt(adjustment).value < 0
  {
    match ParseInt(adjustment)
    case None => Failure(InvalidAmount)
    case Some(amount) =>
      if amount == 0 then Failure(InvalidAmount)
      else if quantity + amount < 0 then Failure(NegativeStock)
      else Success(amount)
  }

  // ----- Lemmas -----

  /** Every non-zero amount that keeps the stock non-negative is accepted when
      typed in decimal, even with a fraction or an exponent after it. */
  lemma AcceptsEveryValidAmount(quantity: int, amount: int, rest: string)
    requires amount != 0 && quantity + amount >= 0
    requires rest == [] || !IsDigit(rest[0])
    ensures ValidateAdjustment(quantity, IntToDecimal(amount) + rest) == Success(amount)
  {
    ParseIntOfDecimal(amount, rest);
  }

  /** Every non-zero amount that would make the stock negative is refused as
      negative stock, whatever follows its decimal digits. */
  lemma RefusesEveryOverdraw(quantity: int, amount: int, rest: string)
    requires amount != 0 && quantity + amount < 0
    requires rest == [] || !IsDigit(rest[0])
    ensures ValidateAdjustment(quantity, IntToDecimal(amount) + rest) == Failure(NegativeStock)
  {
    ParseIntOfDecimal(amount, rest);
  }

  /** Zero is an invalid amount. */
  lemma ExampleZero()
    ensures ValidateAdjustment(8, "0") == Failure(InvalidAmount)
  {
    ParseIntOfDigits("0", "");
    assert "0" + "" == "0";
    assert DigitsValue("0") == 0 by {
      assert "0"[..0] == [];
    }
  }

  /** Negative zero is an invalid amount too. */
  lemma ExampleNegativeZero()
    ensures ValidateAdjustment(8, "-0") == Failure(InvalidAmount)
  {
    ParseIntOfZero();
  }

  /** Letters and the empty string are invalid amounts. */
  lemma ExamplesNotANumber()
    ensures ValidateAdjustment(8, "abc") == Failure(InvalidAmount)
    ensures ValidateAdjustment(8, "") == Failure(InvalidAmount)
  {
    var s := "abc";
    assert s[0] == 'a';
    ParseIntOfNonDigit(s);
  }

  /** The number input accepts "1e3", which parses to 1. */
  lemma ExampleExponent()
    ensures ValidateAdjustment(8, "1e3") == Success(1)
  {
    assert DigitsValue("1") == 1 by {
      assert "1"[..0] == [];
    }
    assert "1" + "e3" == "1e3";
    ParseIntOfDigits("1", "e3");
    assert ParseInt("1e3") == Some(1);
  }

  /** The number input accepts "2.7", which parses to 2. */
  lemma ExampleFraction()
    ensures ValidateAdjustment(8, "2.7") == Success(2)
  {
    assert DigitsValue("2") == 2 by {
      assert "2"[..0] == [];
    }
    assert "2" + ".7" == "2.7";
    ParseIntOfDigits("2", ".7");
    assert ParseInt("2.7") == Some(2);
  }

  /** An accepted adjustment of an item taken from the inventory changes only
      that item, leaves it with a non-negative quantity, keeps a stock without
      negative quantities so, and moves the total by the amount. */
  lemma AcceptedAdjustmentKeepsStock(inventory: seq<Item>, k: int, adjustment: string)
    requires UniqueIds(inventory) && 0 <= k < |inventory|
    requires ValidateAdjustment(inventory[k].fields.quantity, adjustment).Success?
    ensures var amount := ValidateAdjustment(inventory[k].fields.quantity, adjustment).value;
      var r := AdjustQuantity(inventory, inventory[k].id, amount);
      && r == inventory[k := Adjusted(inventory[k], amount)]
      && (forall j :: 0 <= j < |r| && r[j].id == inventory[k].id ==> r[j].fields.quantity >= 0)
      && (NonNegativeStock(inventory) ==> NonNegativeStock(r))
      && TotalItems(r) == TotalItems(inventory) + amount
  {
    var amount := ValidateAdjustment(inventory[k].fields.quantity, adjustment).value;
    AdjustKeepsStock(inventory, k, amount);
  }
}
