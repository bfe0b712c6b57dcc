/**
  The two sample commands the command box suggests, worked out on the seed
  inventory, and the keyword match inside longer words.
*/
module CommandScenarios {
  import opened Wrappers
  import opened Text
  import opened Inventory
  import opened CommandAgent

  /** An item whose lower-cased name has a character the line lacks is not named by it. */
  lemma NotNamedByChar(text: string, item: Item, k: nat)
    requires k < |item.name| && LowerChar(item.name[k]) !in text
    ensures !Names(text, item)
  {
    assert Lower(item.name)[k] == LowerChar(item.name[k]);
    NotContainsByChar(text, Lower(item.name), LowerChar(item.name[k]));
  }

  /** For every item but the one at `m`, `ks` points at a character of its name that the line lacks. */
  predicate Witnessed(snapshot: seq<Item>, text: string, m: nat, ks: seq<nat>) {
    |ks| == |snapshot| &&
    forall j :: 0 <= j < |snapshot| && j != m ==>
      ks[j] < |snapshot[j].name| && LowerChar(snapshot[j].name[ks[j]]) !in text
  }

  /** The line names none of the witnessed items. */
  lemma OnlyNamed(snapshot: seq<Item>, text: string, m: nat, ks: seq<nat>)
    requires Witnessed(snapshot, text, m, ks)
    ensures forall j :: 0 <= j < |snapshot| && j != m ==> !Names(text, snapshot[j])
  {
    forall j | 0 <= j < |snapshot| && j != m
      ensures !Names(text, snapshot[j])
    {
      NotNamedByChar(text, snapshot[j], ks[j]);
    }
  }

  /** `add` is found inside `address`, so such a line reads as an increase. */
  lemma AddressSaysIncrease(text: string)
    requires Contains(text, "address")
    ensures SaysIncrease(text) && IntentOf(text) == Some(Increase)
  {
    ContainsIff(text, "address");
    var i :| OccursAt(text, "address", i);
    assert text[i..i + 3] == text[i..i + 7][..3] == "add";
    assert OccursAt(text, "add", i);
    ContainsIff(text, "add");
  }

  // ---------------------------------------------------------------- "bought 5 kg of onions"

  /** The line `bought 5 kg of onions`, written as two pieces so that the verifier reasons about them instead of evaluating the whole line. */
  const Bought: string := "bought " + "5 kg of onions"

  lemma BoughtSaysIncrease()
    ensures Contains(Bought, "bought")
  {
    assert Bought == "" + "bought" + " 5 kg of onions";
    ContainsSelf("bought");
    ContainsInContext("", "bought", " 5 kg of onions", "bought");
  }

  /** A numeral at the very start is read up to the first non-digit. */
  lemma LeadingFive()
    ensures FirstNumber("5 kg of onions") == Some("5")
  {
    var s := "5 kg of onions";
    assert FirstDigit(s) == Some(0);
    assert s[0..] == s;
    assert s[1..][0] == ' ';
    assert DigitRun(s[1..]) == 0;
    assert DigitRun(s) == 1;
    assert s[..1] == "5";
  }

  lemma NoDigitBeforeFive()
    ensures forall c :: IsDigit(c) ==> c !in "bought "
  {
  }

  lemma BoughtNumber()
    ensures FirstNumber(Bought) == Some("5")
  {
    LeadingFive();
    NoDigitBeforeFive();
    FirstNumberAfter("bought ", "5 kg of onions");
  }

  lemma FiveIsFive()
    ensures ParseDecimal("5") == 5.0
  {
  }

  lemma BoughtParses()
    ensures ParseCommand(Bought) == Some(Command(Increase, "5", 5.0))
  {
    BoughtSaysIncrease();
    BoughtNumber();
    FiveIsFive();
    ParsedAs(Bought, Increase);
  }

  lemma OnionsLowered()
    ensures Lower(InitialInventory[6].name) == "onions"
  {
    var l := Lower(InitialInventory[6].name);
    assert l[0] == 'o' && l[1] == 'n' && l[2] == 'i' && l[3] == 'o' && l[4] == 'n' && l[5] == 's';
  }

  lemma BoughtNamesOnions()
    ensures Names(Bought, InitialInventory[6])
  {
    OnionsLowered();
    assert Bought == "bought 5 kg of " + "onions" + "";
    ContainsSelf("onions");
    ContainsInContext("bought 5 kg of ", "onions", "", "onions");
  }

  /** One letter of each seed name, lower-cased; used to show that a line does not name an item. */
  lemma SeedLetters()
    ensures LowerChar(InitialInventory[0].name[0]) == 'p'  // Pizza Dough
    ensures LowerChar(InitialInventory[1].name[0]) == 'm'  // Mozzarella Cheese
    ensures LowerChar(InitialInventory[2].name[2]) == 'm'  // Tomato Sauce
    ensures LowerChar(InitialInventory[3].name[0]) == 'p'  // Pepperoni
    ensures LowerChar(InitialInventory[4].name[0]) == 'm'  // Mushrooms
    ensures LowerChar(InitialInventory[5].name[1]) == 'l'  // Olives
    ensures LowerChar(InitialInventory[5].name[3]) == 'v'
    ensures LowerChar(InitialInventory[6].name[1]) == 'n'  // Onions
    ensures LowerChar(InitialInventory[7].name[0]) == 'g'  // Green Peppers
    ensures LowerChar(InitialInventory[7].name[6]) == 'p'
  {
  }

  lemma BoughtLetters()
    ensures 'p' !in Bought && 'm' !in Bought && 'l' !in Bought
  {
  }

  lemma BoughtLacksOtherNames()
    ensures Witnessed(InitialInventory, Bought, 6, [0, 0, 2, 0, 0, 1, 0, 6])
  {
    BoughtLetters();
    SeedLetters();
  }

  lemma BoughtNamesOnlyOnions()
    ensures forall j :: 0 <= j < 8 && j != 6 ==> !Names(Bought, InitialInventory[j])
  {
    BoughtLacksOtherNames();
    OnlyNamed(InitialInventory, Bought, 6, [0, 0, 2, 0, 0, 1, 0, 6]);
  }

  lemma AddedOnionsMessage()
    ensures Message("Added", "5", InitialInventory[6]) == "Added 5 kg of Onions!"
  {
    var item := InitialInventory[6];
    assert item.unit == "kg" && item.name == "Onions";
    assert "Added" + " " + "5" + " " + "kg" + " of " + "Onions" + "!" == "Added 5 kg of Onions!";
  }

  /** `bought 5 kg of onions` on the seed: Onions goes from 10 to 15 kg and no other item changes. */
  lemma BoughtOnionsStock()
    ensures var r := Run(InitialInventory, Bought, ParseCommand(Bought), 8);
      r[6] == InitialInventory[6].(stock := 15.0) &&
      forall j :: 0 <= j < 8 && j != 6 ==> r[j] == InitialInventory[j]
  {
    BoughtParses();
    BoughtNamesOnions();
    BoughtNamesOnlyOnions();
    InitialInventoryWellFormed();
    CommandEffect(InitialInventory, Bought, ParseCommand(Bought));
  }

  /** ... and the banner reads `Added 5 kg of Onions!`. */
  lemma BoughtOnionsFeedback()
    ensures FeedbackFor(InitialInventory, Bought, ParseCommand(Bought)) == Feedback(Success, "Added 5 kg of Onions!")
  {
    BoughtParses();
    BoughtNamesOnions();
    BoughtNamesOnlyOnions();
    AddedOnionsMessage();
    assert LastApplied(InitialInventory, Bought, ParseCommand(Bought), 8) == Some(6);
  }

  // ---------------------------------------------------------------- "used 2 liters of sauce"

  /** The line `used 2 liters of sauce`. */
  const Used: string := "used " + "2 liters of sauce"

  lemma UsedLetters()
    ensures 'p' !in Used && 'm' !in Used && 'v' !in Used && 'n' !in Used && 'g' !in Used
  {
  }

  lemma UsedLacksEveryName()
    ensures Witnessed(InitialInventory, Used, 8, [0, 0, 2, 0, 0, 3, 1, 0])
  {
    UsedLetters();
    SeedLetters();
  }

  /**
    `used 2 liters of sauce` on the seed changes nothing and shows the
    guidance: `sauce` alone does not contain the whole name `tomato sauce`.
  */
  lemma UsedSauceOnSeed()
    ensures Run(InitialInventory, Used, ParseCommand(Used), 8) == InitialInventory
    ensures FeedbackFor(InitialInventory, Used, ParseCommand(Used)) == Feedback(Failure, Guidance)
  {
    UsedLacksEveryName();
    OnlyNamed(InitialInventory, Used, 8, [0, 0, 2, 0, 0, 3, 1, 0]);
    Unrecognized(InitialInventory, Used);
  }
}
