/** The recipe detail page's computed text: the time and portions line, the
    favourite button's label, one quantity text per ingredient and one
    number label per instruction step. */
module RecipePage {
  import opened Wrappers
  import opened Strings
  import RecipeCard

  datatype TimeAndPortionsText = TimeAndPortionsText(time: string, portions: string)

  /** `TimeAndPortions`: the page computes hours and minutes itself, the same
      way the recipe card does, and the two always agree; the portions text is
      "<n> portions". */
  function TimeAndPortions(timeInMinutes: int, portions: int): (r: TimeAndPortionsText)
    ensures r.time == RecipeCard.TimeString(timeInMinutes)
    ensures r.portions == IntToString(portions) + " portions"
  {
    var hours := timeInMinutes / 60;
    var mins := timeInMinutes - hours * 60;
    var timeString :=
      if hours != 0 then IntToString(hours) + " h " + IntToString(mins) + " min"
      else IntToString(mins) + " min";
    TimeAndPortionsText(timeString, IntToString(portions) + " portions")
  }

  /** The page's examples: 110 minutes is "1 h 50 min", 45 minutes is "45 min". */
  lemma TimeExamples()
    ensures TimeAndPortions(110, 4).time == "1 h 50 min"
    ensures TimeAndPortions(45, 2).time == "45 min"
  {
    RecipeCard.FortyFiveMinutes();
    RecipeCard.OneHourFifty();
  }

  /** `ButtonSection`'s label. */
  function FavoriteButtonLabel(isFavorite: bool): (r: string)
    ensures r == "REMOVE FROM FAVORITES" <==> isFavorite
    ensures r == "ADD TO FAVORITES" <==> !isFavorite
  {
    if isFavorite then "REMOVE FROM FAVORITES" else "ADD TO FAVORITES"
  }

  /** The page's button offers the same action as the card's toggle: removal
      exactly when the recipe is a favourite. */
  lemma LabelMatchesToggleMode(isFavorite: bool)
    ensures FavoriteButtonLabel(isFavorite) == "REMOVE FROM FAVORITES"
            <==> RecipeCard.ToggleMode(isFavorite) == RecipeCard.Remove
    ensures FavoriteButtonLabel(isFavorite) == "ADD TO FAVORITES"
            <==> RecipeCard.ToggleMode(isFavorite) == RecipeCard.Add
  {
  }

  // ---------------------------------------------------------------------------
  // Ingredients

  datatype Ingredient = Ingredient(name: string, amount: int, unit: string)

  /** One rendered ingredient: the quantity span and the name span. */
  datatype IngredientLine = IngredientLine(quantity: string, name: string)

  /** `${amount} ${unit}`: the separating space stays even when the unit is empty. */
  function QuantityText(ing: Ingredient): (r: string)
    ensures |r| > |ing.unit| && r[|r| - |ing.unit| - 1..] == " " + ing.unit
    ensures ParseInt(r[..|r| - |ing.unit| - 1]) == Some(ing.amount)
  {
    var amountText := IntToString(ing.amount);
    IntToStringRoundTrip(ing.amount);
    var r := amountText + " " + ing.unit;
    assert r[..|amountText|] == amountText;
    r
  }

  /** `IngredientList`: one line per ingredient, in order. */
  function IngredientLines(ingredients: seq<Ingredient>): (r: seq<IngredientLine>)
    ensures |r| == |ingredients|
    ensures forall i :: 0 <= i < |r| ==>
              r[i] == IngredientLine(QuantityText(ingredients[i]), ingredients[i].name)
  {
    seq(|ingredients|, i requires 0 <= i < |ingredients| =>
      IngredientLine(QuantityText(ingredients[i]), ingredients[i].name))
  }

  /** A quantity text splits at its first space into the amount, which reads
      back as the ingredient's amount, and the unit, which may be empty. */
  lemma QuantityTextSplits(ing: Ingredient)
    ensures var q := QuantityText(ing);
            && ' ' in q
            && ParseInt(q[..IndexOf(q, ' ')]) == Some(ing.amount)
            && q[IndexOf(q, ' ') + 1..] == ing.unit
  {
    var d := IntToString(ing.amount);
    var q := QuantityText(ing);
    var rest := " " + ing.unit;
    assert q == d + rest;
    IntToStringChars(ing.amount);
    IndexOfAfterPrefix(d, rest, ' ');
    assert q[..|d|] == d;
    assert q[|d| + 1..] == ing.unit;
    IntToStringRoundTrip(ing.amount);
  }

  // ---------------------------------------------------------------------------
  // Instructions

  /** One rendered instruction: its number text and its step text. */
  datatype InstructionItem = InstructionItem(numberText: string, step: string)

  /** `InstructionList`: one item per step, labelled "1.", "2.", … in order. */
  function InstructionItems(instructions: seq<string>): (r: seq<InstructionItem>)
    ensures |r| == |instructions|
    ensures forall i :: 0 <= i < |r| ==> r[i].step == instructions[i]
  {
    seq(|instructions|, i requires 0 <= i < |instructions| =>
      InstructionItem(NatToString(i + 1) + ".", instructions[i]))
  }

  /** Each label is a number followed by a dot, and that number is the step's
      position counted from 1, so labels are distinct and increase along the
      list. */
  lemma InstructionNumbering(instructions: seq<string>, i: nat)
    requires i < |instructions|
    ensures var text := InstructionItems(instructions)[i].numberText;
            && |text| >= 2 && text[|text| - 1] == '.'
            && ParseNat(text[..|text| - 1]) == Some(i + 1)
  {
    var text := InstructionItems(instructions)[i].numberText;
    assert text[..|text| - 1] == NatToString(i + 1);
    NatToStringRoundTrip(i + 1);
  }
}
