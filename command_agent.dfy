/**
  The free-text command box ("AI Agent Command Center"): a submitted line is
  lower-cased, every item whose lower-cased name occurs in it is adjusted by
  the first number in the line, up or down according to keywords, and a
  feedback message is set.
*/
module CommandAgent {
  import opened Wrappers
  import opened Text
  import opened Inventory

  datatype Intent = Increase | Decrease

  /** What a line asks for, whichever item it names: a direction, the numeral as typed and its value. */
  datatype Command = Command(intent: Intent, token: string, amount: real)

  /** The feedback banner: `{ type: 'success' | 'error', message }`. */
  datatype Tone = Success | Failure
  datatype Feedback = Feedback(tone: Tone, message: string)

  const Guidance: string := "I couldn't understand that. Try: 'bought 5 kg of onions' or 'used 2 liters of sauce'"

  /** `bought`, `received` or `add` anywhere in the line (also inside longer words). */
  predicate SaysIncrease(text: string) {
    Contains(text, "bought") || Contains(text, "received") || Contains(text, "add")
  }

  /** `used` or `sold` anywhere in the line. */
  predicate SaysDecrease(text: string) {
    Contains(text, "used") || Contains(text, "sold")
  }

  /** The increase keywords are tested first, so they win over the decrease keywords. */
  function IntentOf(text: string): Option<Intent> {
    if SaysIncrease(text) then Some(Increase)
    else if SaysDecrease(text) then Some(Decrease)
    else None
  }

  /** The direction and amount of a (lower-cased) line, or `None` when it has no keyword or no digit. */
  function ParseCommand(text: string): (r: Option<Command>)
    ensures r.None? <==> IntentOf(text).None? || FirstNumber(text).None?
    ensures r.Some? ==> r.value.amount >= 0.0 && IsNumeral(r.value.token) && Contains(text, r.value.token)
  {
    match IntentOf(text)
    case None => None
    case Some(intent) =>
      match FirstNumber(text)
      case None => None
      case Some(tok) =>
        FirstNumberSpec(text);
        Some(Command(intent, tok, ParseDecimal(tok)))
  }

  /** `text.includes(item.name.toLowerCase())`. */
  predicate Names(text: string, item: Item) {
    Contains(text, Lower(item.name))
  }

  /** An increase adds the amount without bound; a decrease subtracts it and stops at 0. */
  function NewStock(intent: Intent, stock: real, amount: real): real {
    match intent
    case Increase => stock + amount
    case Decrease => ClampAtZero(stock - amount)
  }

  /*
    The keyword and number tests depend on the line alone, so every item of
    one submission sees the same outcome of them. The functions below take
    that outcome, `cmd` (`ParseCommand(text)` for a real submission), as a
    parameter next to the line.
  */

  /** The line adjusts this item: it has a keyword and a digit, and it names the item. */
  predicate Applies(item: Item, text: string, cmd: Option<Command>) {
    cmd.Some? && Names(text, item)
  }

  /** The item as the command leaves it, when its id is not shared: only its stock can change. */
  function Adjusted(item: Item, text: string, cmd: Option<Command>): Item {
    if Applies(item, text, cmd) then
      item.(stock := NewStock(cmd.value.intent, item.stock, cmd.value.amount))
    else item
  }

  /** Handling one item of the snapshot: an `onUpdateStock` with a stock computed from that snapshot item. */
  function Step(state: seq<Item>, item: Item, text: string, cmd: Option<Command>): seq<Item> {
    if Applies(item, text, cmd) then
      UpdateById(state, item.id, StockPatch(NewStock(cmd.value.intent, item.stock, cmd.value.amount)))
    else state
  }

  /** The inventory once the first `k` items of the snapshot have been handled, in list order. */
  function Run(snapshot: seq<Item>, text: string, cmd: Option<Command>, k: nat): (r: seq<Item>)
    requires k <= |snapshot|
    ensures |r| == |snapshot|
  {
    if k == 0 then snapshot else Step(Run(snapshot, text, cmd, k - 1), snapshot[k - 1], text, cmd)
  }

  /** The position of the last of the first `k` items the line adjusts: its message is the one left showing. */
  function LastApplied(snapshot: seq<Item>, text: string, cmd: Option<Command>, k: nat): (r: Option<nat>)
    requires k <= |snapshot|
    ensures r.None? <==> forall j :: 0 <= j < k ==> !Applies(snapshot[j], text, cmd)
    ensures r.Some? ==> r.value < k && Applies(snapshot[r.value], text, cmd)
    ensures r.Some? ==> forall j :: r.value < j < k ==> !Applies(snapshot[j], text, cmd)
  {
    if k == 0 then None
    else if Applies(snapshot[k - 1], text, cmd) then Some(k - 1)
    else LastApplied(snapshot, text, cmd, k - 1)
  }

  /** The template `${verb} ${match[1]} ${item.unit} of ${item.name}!`. */
  function Message(verb: string, token: string, item: Item): string {
    verb + " " + token + " " + item.unit + " of " + item.name + "!"
  }

  /** `Added 5 kg of Onions!` for an increase, `Removed 2 liters of Tomato Sauce!` for a decrease. */
  function Confirmation(c: Command, item: Item): Feedback {
    match c.intent
    case Increase => Feedback(Success, Message("Added", c.token, item))
    case Decrease => Feedback(Success, Message("Removed", c.token, item))
  }

  /** The feedback a non-blank line leaves: the last item's confirmation, or the guidance when no item was adjusted. */
  function FeedbackFor(snapshot: seq<Item>, text: string, cmd: Option<Command>): Feedback {
    match LastApplied(snapshot, text, cmd, |snapshot|)
    case None => Feedback(Failure, Guidance)
    case Some(j) => Confirmation(cmd.value, snapshot[j])
  }

  /**
    The callback `handleSubmit` passes to `forEach`, for one item of the
    snapshot: when the line names the item and has a keyword and a number,
    send the item's new stock to `onUpdateStock` (an update by id of the
    running inventory), set the confirmation and raise the `processed` flag.
  */
  method VisitItem(text: string, item: Item, state: seq<Item>, shown: Option<Feedback>, processed: bool)
    returns (state': seq<Item>, shown': Option<Feedback>, processed': bool)
    ensures state' == Step(state, item, text, ParseCommand(text))
    ensures Applies(item, text, ParseCommand(text)) ==>
      processed' && shown' == Some(Confirmation(ParseCommand(text).value, item))
    ensures !Applies(item, text, ParseCommand(text)) ==> processed' == processed && shown' == shown
  {
    state', shown', processed' := state, shown, processed;
    if Contains(text, Lower(item.name)) {
      if SaysIncrease(text) {
        var m := FirstNumber(text);
        if m.Some? {
          ParsedAs(text, Increase);
          var stock := item.stock + ParseDecimal(m.value);
          assert stock == NewStock(ParseCommand(text).value.intent, item.stock, ParseCommand(text).value.amount);
          state' := UpdateById(state, item.id, StockPatch(stock));
          shown' := Some(Feedback(Success, Message("Added", m.value, item)));
          processed' := true;
        } else {
          assert ParseCommand(text).None?;
        }
      } else if SaysDecrease(text) {
        var m := FirstNumber(text);
        if m.Some? {
          ParsedAs(text, Decrease);
          var stock := ClampAtZero(item.stock - ParseDecimal(m.value));
          assert stock == NewStock(ParseCommand(text).value.intent, item.stock, ParseCommand(text).value.amount);
          state' := UpdateById(state, item.id, StockPatch(stock));
          shown' := Some(Feedback(Success, Message("Removed", m.value, item)));
          processed' := true;
        } else {
          assert ParseCommand(text).None?;
        }
      } else {
        assert IntentOf(text).None?;
      }
    }
  }

  /**
    `handleSubmit`. A blank line returns at once: nothing changes, not even the
    input box. Otherwise the line is lower-cased, every item of the snapshot is
    visited in list order (there is no early exit), the feedback is the last
    confirmation or, when no item was adjusted, the guidance, and the input box
    is cleared.
  */
  method HandleSubmit(inventory: seq<Item>, inputText: string, feedback: Option<Feedback>)
    returns (inventory': seq<Item>, inputText': string, feedback': Option<Feedback>)
    ensures Trim(inputText) == "" ==> inventory' == inventory && inputText' == inputText && feedback' == feedback
    ensures Trim(inputText) != "" ==>
      var text := Lower(inputText);
      && inputText' == ""
      && inventory' == Run(inventory, text, ParseCommand(text), |inventory|)
      && feedback' == Some(FeedbackFor(inventory, text, ParseCommand(text)))
  {
    if Trim(inputText) == "" {
      return inventory, inputText, feedback;
    }
    var text := Lower(inputText);
    ghost var cmd := ParseCommand(text);
    var processed := false;
    var state := inventory;
    var shown := feedback;
    for i := 0 to |inventory|
      invariant state == Run(inventory, text, cmd, i)
      invariant processed <==> LastApplied(inventory, text, cmd, i).Some?
      invariant processed ==>
        shown == Some(Confirmation(cmd.value, inventory[LastApplied(inventory, text, cmd, i).value]))
    {
      StepUnfold(inventory, text, cmd, i);
      state, shown, processed := VisitItem(text, inventory[i], state, shown, processed);
    }
    if !processed {
      shown := Some(Feedback(Failure, Guidance));
    }
    inventory', inputText', feedback' := state, "", shown;
  }

  /** A line with the keywords of `intent` (and, for a decrease, none of an increase) and a digit parses to that intent and its first numeral. */
  lemma ParsedAs(text: string, intent: Intent)
    requires FirstNumber(text).Some?
    requires intent == Increase ==> SaysIncrease(text)
    requires intent == Decrease ==> !SaysIncrease(text) && SaysDecrease(text)
    ensures ParseCommand(text) == Some(Command(intent, FirstNumber(text).value, ParseDecimal(FirstNumber(text).value)))
  {
  }

  /** Handling item `i` either adjusts it, and its message becomes the last one, or changes nothing. */
  lemma StepUnfold(snapshot: seq<Item>, text: string, cmd: Option<Command>, i: nat)
    requires i < |snapshot|
    ensures Applies(snapshot[i], text, cmd) ==>
      && LastApplied(snapshot, text, cmd, i + 1) == Some(i)
      && Run(snapshot, text, cmd, i + 1) == UpdateById(Run(snapshot, text, cmd, i), snapshot[i].id,
           StockPatch(NewStock(cmd.value.intent, snapshot[i].stock, cmd.value.amount)))
    ensures !Applies(snapshot[i], text, cmd) ==>
      && LastApplied(snapshot, text, cmd, i + 1) == LastApplied(snapshot, text, cmd, i)
      && Run(snapshot, text, cmd, i + 1) == Run(snapshot, text, cmd, i)
  {
  }

  // ---------------------------------------------------------------- properties

  /**
    Whatever the ids, the command keeps the length and order of the list and
    every field but the stock of every item.
  */
  lemma {:induction false} RunKeepsShape(snapshot: seq<Item>, text: string, cmd: Option<Command>, k: nat)
    requires k <= |snapshot|
    ensures |Run(snapshot, text, cmd, k)| == |snapshot|
    ensures forall j :: 0 <= j < |snapshot| ==>
      Run(snapshot, text, cmd, k)[j] == snapshot[j].(stock := Run(snapshot, text, cmd, k)[j].stock)
  {
    if k > 0 {
      RunKeepsShape(snapshot, text, cmd, k - 1);
      var prev := Run(snapshot, text, cmd, k - 1);
      var item := snapshot[k - 1];
      if Applies(item, text, cmd) {
        UpdateByIdSpec(prev, item.id, StockPatch(NewStock(cmd.value.intent, item.stock, cmd.value.amount)));
      }
    }
  }

  /**
    With unique ids, after the first `k` items have been handled each of them
    is `Adjusted` (its stock computed from the snapshot) and the rest are as
    they were.
  */
  lemma {:induction false} RunPointwise(snapshot: seq<Item>, text: string, cmd: Option<Command>, k: nat)
    requires k <= |snapshot| && UniqueIds(snapshot)
    ensures |Run(snapshot, text, cmd, k)| == |snapshot|
    ensures forall j :: 0 <= j < |snapshot| ==>
      Run(snapshot, text, cmd, k)[j] == if j < k then Adjusted(snapshot[j], text, cmd) else snapshot[j]
  {
    if k > 0 {
      RunPointwise(snapshot, text, cmd, k - 1);
      RunKeepsShape(snapshot, text, cmd, k - 1);
      AdjustOne(snapshot, text, cmd, k - 1);
    }
  }

  /** Handling item `i` after the items before it replaces just that item by its adjusted form, when no other item shares its id. */
  lemma AdjustOne(snapshot: seq<Item>, text: string, cmd: Option<Command>, i: nat)
    requires i < |snapshot| && UniqueIds(snapshot)
    requires Run(snapshot, text, cmd, i)[i] == snapshot[i]
    requires forall j :: 0 <= j < |snapshot| ==> Run(snapshot, text, cmd, i)[j].id == snapshot[j].id
    ensures Run(snapshot, text, cmd, i + 1) == Run(snapshot, text, cmd, i)[i := Adjusted(snapshot[i], text, cmd)]
  {
    var prev := Run(snapshot, text, cmd, i);
    var item := snapshot[i];
    if Applies(item, text, cmd) {
      UpdateAt(prev, i, StockPatch(NewStock(cmd.value.intent, item.stock, cmd.value.amount)));
    } else {
      assert prev[i := item] == prev;
    }
  }

  /**
    The effect of a non-blank line on a list with unique ids: every item it
    names is adjusted by the same amount, every other item is untouched.
  */
  lemma CommandEffect(snapshot: seq<Item>, text: string, cmd: Option<Command>)
    requires UniqueIds(snapshot)
    ensures |Run(snapshot, text, cmd, |snapshot|)| == |snapshot|
    ensures forall j :: 0 <= j < |snapshot| ==> Run(snapshot, text, cmd, |snapshot|)[j] == Adjusted(snapshot[j], text, cmd)
  {
    RunPointwise(snapshot, text, cmd, |snapshot|);
  }

  /**
    The three ways a line fails: no item is named, no keyword, or no digit.
    In each case the inventory is unchanged and the guidance is shown.
  */
  lemma Unrecognized(snapshot: seq<Item>, text: string)
    requires (forall j :: 0 <= j < |snapshot| ==> !Names(text, snapshot[j]))
          || IntentOf(text).None? || FirstNumber(text).None?
    ensures Run(snapshot, text, ParseCommand(text), |snapshot|) == snapshot
    ensures FeedbackFor(snapshot, text, ParseCommand(text)) == Feedback(Failure, Guidance)
  {
    NothingAppliesKeepsAll(snapshot, text, ParseCommand(text), |snapshot|);
  }

  lemma {:induction false} NothingAppliesKeepsAll(snapshot: seq<Item>, text: string, cmd: Option<Command>, k: nat)
    requires k <= |snapshot|
    requires forall j :: 0 <= j < k ==> !Applies(snapshot[j], text, cmd)
    ensures Run(snapshot, text, cmd, k) == snapshot
  {
    if k > 0 {
      NothingAppliesKeepsAll(snapshot, text, cmd, k - 1);
    }
  }

  /** The line succeeds exactly when it adjusts at least one item. */
  lemma SuccessIffAdjusted(snapshot: seq<Item>, text: string, cmd: Option<Command>)
    ensures FeedbackFor(snapshot, text, cmd).tone == Success <==>
      exists j :: 0 <= j < |snapshot| && Applies(snapshot[j], text, cmd)
  {
  }

  /**
    An increase keyword wins over a decrease keyword: every named item's stock
    becomes its snapshot stock plus the first numeral's value, with no bound.
  */
  lemma IncreaseWins(snapshot: seq<Item>, text: string, j: nat)
    requires UniqueIds(snapshot) && j < |snapshot| && Names(text, snapshot[j])
    requires SaysIncrease(text) && FirstNumber(text).Some?
    ensures Run(snapshot, text, ParseCommand(text), |snapshot|)[j].stock == snapshot[j].stock + ParseDecimal(FirstNumber(text).value)
    ensures Run(snapshot, text, ParseCommand(text), |snapshot|)[j].stock >= snapshot[j].stock
  {
    CommandEffect(snapshot, text, ParseCommand(text));
  }

  /** A decrease sets a named item's stock to `max(0, stock - amount)`, so it is never negative afterwards. */
  lemma DecreaseClamps(snapshot: seq<Item>, text: string, j: nat)
    requires UniqueIds(snapshot) && j < |snapshot| && Names(text, snapshot[j])
    requires !SaysIncrease(text) && SaysDecrease(text) && FirstNumber(text).Some?
    ensures Run(snapshot, text, ParseCommand(text), |snapshot|)[j].stock ==
      ClampAtZero(snapshot[j].stock - ParseDecimal(FirstNumber(text).value))
    ensures 0.0 <= Run(snapshot, text, ParseCommand(text), |snapshot|)[j].stock <= ClampAtZero(snapshot[j].stock)
  {
    CommandEffect(snapshot, text, ParseCommand(text));
  }

  /** A command changes only stocks, so it keeps the ids unique. */
  lemma RunKeepsUniqueIds(snapshot: seq<Item>, text: string, cmd: Option<Command>)
    requires UniqueIds(snapshot)
    ensures UniqueIds(Run(snapshot, text, cmd, |snapshot|))
  {
    RunKeepsShape(snapshot, text, cmd, |snapshot|);
    var r := Run(snapshot, text, cmd, |snapshot|);
    forall i, j | 0 <= i < j < |r| ensures r[i].id != r[j].id {
      assert r[i].id == snapshot[i].id && r[j].id == snapshot[j].id;
    }
  }
}
