/** Fitting a prompt into a token budget (backend/app/domains/prompts/token_budget.py). */
module TokenBudget {
  import opened Common
  import opened Llm
  import PyText

  const CHARS_PER_TOKEN := 3
  const MESSAGE_OVERHEAD := 8
  const TRUNCATION_MARKER := "\n\n[Earlier prompt content truncated to fit context budget.]"

  datatype PromptBudgetResult = PromptBudgetResult(
    messages: seq<LLMMessage>,
    estimatedTokens: int,
    droppedMessages: int,
    truncatedSystemMessages: int)

  function EstimateText(text: string): nat {
    Max(1, (|text| + CHARS_PER_TOKEN - 1) / CHARS_PER_TOKEN)
  }

  function EstimateMessage(m: LLMMessage): nat {
    MESSAGE_OVERHEAD + EstimateText(m.content)
  }

  /** The estimate is the least positive number of tokens that covers the text at three characters
      each, and eight more for the message around it. */
  lemma EstimateIsLeast(m: LLMMessage)
    ensures var tokens := EstimateMessage(m) - 8;
            1 <= tokens && |m.content| <= 3 * tokens && (tokens > 1 ==> |m.content| > 3 * (tokens - 1))
  {
  }

  /** `sum(estimate_message(item) for item in ms)` */
  function Cost(ms: seq<LLMMessage>): nat {
    if ms == [] then 0 else Cost(ms[..|ms| - 1]) + EstimateMessage(ms[|ms| - 1])
  }

  function AvailableChars(budget: int): int {
    Max(64, (budget - MESSAGE_OVERHEAD) * CHARS_PER_TOKEN)
  }

  function TruncateMessage(m: LLMMessage, budget: int): LLMMessage {
    var available := AvailableChars(budget);
    if |m.content| > available then
      var kept := m.content[..Max(1, available - |TRUNCATION_MARKER|)];
      m.(content := PyText.RStrip(kept) + TRUNCATION_MARKER)
    else m
  }

  /** Truncation respects the budget it is given, down to a floor of 30 tokens. It changes only
      the content, to as much of the original as goes before the marker, without the white space
      that may end in, and only when the content is too long; a second truncation to the same
      budget changes nothing. */
  lemma TruncateFits(m: LLMMessage, budget: int) returns (kept: nat)
    ensures EstimateMessage(TruncateMessage(m, budget)) <= Max(30, budget)
    ensures |m.content| <= Max(64, 3 * (budget - 8)) <==> TruncateMessage(m, budget) == m
    ensures kept <= |m.content|
    ensures |m.content| > Max(64, 3 * (budget - 8)) ==>
              var room := Max(64, 3 * (budget - 8)) - |TRUNCATION_MARKER|;
              && kept <= room < |m.content|
              && TruncateMessage(m, budget) == m.(content := m.content[..kept] + TRUNCATION_MARKER)
              && PyText.Blank(m.content[kept..room])
              && (kept > 0 ==> !PyText.IsSpace(m.content[kept - 1]))
    ensures TruncateMessage(TruncateMessage(m, budget), budget) == TruncateMessage(m, budget)
  {
    hide PyText.RStrip, PyText.IsSpace, PyText.Blank;
    assert |TRUNCATION_MARKER| == 59;
    var available := AvailableChars(budget);
    kept := 0;
    if |m.content| > available {
      kept := CutBack(m.content, available - 59);
      assert |TruncateMessage(m, budget).content| <= available < |m.content|;
    }
  }

  /** Cutting a text and stripping it on the right. */
  lemma CutBack(text: string, room: nat) returns (kept: nat)
    requires room <= |text|
    ensures kept <= room && PyText.RStrip(text[..room]) == text[..kept]
    ensures PyText.Blank(text[kept..room]) && (kept > 0 ==> !PyText.IsSpace(text[kept - 1]))
  {
    PyText.RStripIsPrefix(text[..room]);
    kept := |PyText.RStrip(text[..room])|;
    assert PyText.RStrip(text[..room]) == text[..room][..kept] == text[..kept];
    assert text[..room][kept..] == text[kept..room];
  }

  // ---------------------------------------------------------------- system messages

  predicate IsSystem(m: LLMMessage) {
    m.role == System
  }

  /** The messages of one kind, in order. */
  function Select(ms: seq<LLMMessage>, system: bool): seq<LLMMessage> {
    if ms == [] then []
    else (if IsSystem(ms[0]) == system then [ms[0]] else []) + Select(ms[1..], system)
  }

  function PerMessage(n: nat, budget: int): int
    requires n > 0
  {
    Max(128, budget / n)
  }

  function FitOne(m: LLMMessage, limit: int): LLMMessage {
    if EstimateMessage(m) <= limit then m else TruncateMessage(m, limit)
  }

  function FitAll(ms: seq<LLMMessage>, limit: int): seq<LLMMessage> {
    if ms == [] then [] else FitAll(ms[..|ms| - 1], limit) + [FitOne(ms[|ms| - 1], limit)]
  }

  function Oversized(ms: seq<LLMMessage>, limit: int): nat {
    if ms == [] then 0
    else Oversized(ms[..|ms| - 1], limit) + if EstimateMessage(ms[|ms| - 1]) <= limit then 0 else 1
  }

  /** How many system messages get truncated. */
  function TruncatedCount(ms: seq<LLMMessage>, budget: int): nat {
    if ms == [] then 0 else Oversized(ms, PerMessage(|ms|, budget))
  }

  function FitSystem(ms: seq<LLMMessage>, budget: int): seq<LLMMessage> {
    if ms == [] then [] else FitAll(ms, PerMessage(|ms|, budget))
  }

  lemma {:induction false} FitAllBounds(ms: seq<LLMMessage>, limit: int)
    requires limit >= 128
    ensures |FitAll(ms, limit)| == |ms|
    ensures forall i :: 0 <= i < |ms| ==>
              && FitAll(ms, limit)[i].role == ms[i].role
              && EstimateMessage(FitAll(ms, limit)[i]) <= limit
  {
    if ms != [] {
      FitAllBounds(ms[..|ms| - 1], limit);
      var _ := TruncateFits(ms[|ms| - 1], limit);
    }
  }

  lemma {:induction false} CostAtMost(ms: seq<LLMMessage>, limit: nat)
    requires forall i :: 0 <= i < |ms| ==> EstimateMessage(ms[i]) <= limit
    ensures Cost(ms) <= |ms| * limit
  {
    if ms != [] {
      var init := ms[..|ms| - 1];
      CostAtMost(init, limit);
      assert |ms| * limit == |init| * limit + limit;
    }
  }

  lemma {:induction false} FitAllIsIdentity(ms: seq<LLMMessage>, limit: int)
    requires forall i :: 0 <= i < |ms| ==> EstimateMessage(ms[i]) <= limit
    ensures FitAll(ms, limit) == ms && Oversized(ms, limit) == 0
  {
    if ms != [] {
      FitAllIsIdentity(ms[..|ms| - 1], limit);
      assert ms == ms[..|ms| - 1] + [ms[|ms| - 1]];
    }
  }

  function SystemBudget(budget: int): int {
    Max(512, 11 * budget / 20)
  }

  /** The system part never costs more than its share of the budget, or 128 tokens a message. */
  lemma SystemPartIsBounded(ms: seq<LLMMessage>, budget: int)
    ensures Cost(FitSystem(ms, SystemBudget(budget))) <= Max(SystemBudget(budget), 128 * |ms|)
  {
    hide Cost, FitAll, EstimateMessage, SystemBudget;
    NothingCosts();
    if ms != [] {
      var limit := PerMessage(|ms|, SystemBudget(budget));
      FitAllBounds(ms, limit);
      CostAtMost(FitAll(ms, limit), limit);
      if limit != 128 {
        QuotientFits(SystemBudget(budget), |ms|);
        assert |ms| * limit <= SystemBudget(budget);
      }
    }
  }

  lemma NothingCosts()
    ensures Cost([]) == 0
  {
  }

  lemma QuotientFits(b: int, n: nat)
    requires n > 0
    ensures n * (b / n) <= b
  {
  }

  // ---------------------------------------------------------------- dialogue

  /** How many of the oldest messages have to go so that the rest fits into `remaining`. */
  function FirstKept(ms: seq<LLMMessage>, remaining: int): (k: nat)
    ensures k <= |ms|
  {
    if ms == [] || EstimateMessage(ms[|ms| - 1]) > remaining then |ms|
    else FirstKept(ms[..|ms| - 1], remaining - EstimateMessage(ms[|ms| - 1]))
  }

  lemma {:induction false} CostSplit(a: seq<LLMMessage>, b: seq<LLMMessage>)
    ensures Cost(a + b) == Cost(a) + Cost(b)
  {
    if b == [] {
      assert a + b == a;
    } else {
      assert (a + b)[..|a + b| - 1] == a + b[..|b| - 1];
      CostSplit(a, b[..|b| - 1]);
    }
  }

  /** A suffix fits into the remaining budget exactly when it starts at or after `FirstKept`. */
  lemma {:induction false} KeptIsLongestSuffix(ms: seq<LLMMessage>, remaining: int, k: nat)
    requires k <= |ms| && 0 <= remaining
    ensures Cost(ms[k..]) <= remaining <==> FirstKept(ms, remaining) <= k
  {
    if ms != [] && k < |ms| {
      var init, last := ms[..|ms| - 1], ms[|ms| - 1];
      assert ms[k..] == init[k..] + [last];
      CostSplit(init[k..], [last]);
      assert Cost([last]) == EstimateMessage(last);
      if EstimateMessage(last) <= remaining {
        KeptIsLongestSuffix(init, remaining - EstimateMessage(last), k);
      }
    } else {
      assert ms[k..] == [];
    }
  }

  function SelectDialogue(ms: seq<LLMMessage>, remaining: int): seq<LLMMessage> {
    if ms == [] then []
    else if EstimateMessage(ms[|ms| - 1]) > remaining then [TruncateMessage(ms[|ms| - 1], remaining)]
    else ms[FirstKept(ms, remaining)..]
  }

  lemma DialogueCost(ms: seq<LLMMessage>, remaining: int)
    requires 0 <= remaining
    ensures Cost(SelectDialogue(ms, remaining)) <= Max(30, remaining)
  {
    if ms != [] {
      var last := ms[|ms| - 1];
      var _ := TruncateFits(last, remaining);
      KeptIsLongestSuffix(ms, remaining, FirstKept(ms, remaining));
      assert Cost([TruncateMessage(last, remaining)]) == EstimateMessage(TruncateMessage(last, remaining));
    }
  }

  lemma DialogueIsStable(ms: seq<LLMMessage>, remaining: int)
    requires 0 <= remaining
    ensures SelectDialogue(SelectDialogue(ms, remaining), remaining) == SelectDialogue(ms, remaining)
  {
    var kept := SelectDialogue(ms, remaining);
    if ms != [] {
      var last := ms[|ms| - 1];
      if EstimateMessage(last) > remaining {
        var _ := TruncateFits(last, remaining);
        var t := TruncateMessage(last, remaining);
        if EstimateMessage(t) <= remaining {
          assert FirstKept([t], remaining) == 0;
        }
      } else {
        var k := FirstKept(ms, remaining);
        KeptIsLongestSuffix(ms, remaining, k);
        KeptIsLongestSuffix(kept, remaining, 0);
        assert k < |ms|;
        assert kept[0..] == kept && kept[|kept| - 1] == last;
      }
    }
  }

  // ---------------------------------------------------------------- trim

  function RemainingBudget(ms: seq<LLMMessage>, budget: int): nat {
    Max(0, budget - Cost(FitSystem(Select(ms, true), SystemBudget(budget))))
  }

  function Trimmed(ms: seq<LLMMessage>, budget: int): seq<LLMMessage> {
    Join(FitSystem(Select(ms, true), SystemBudget(budget)), Select(ms, false), budget)
  }

  /** A system part followed by the dialogue chosen for what it leaves of the budget. */
  function Join(system: seq<LLMMessage>, dialogue: seq<LLMMessage>, budget: int): seq<LLMMessage> {
    system + SelectDialogue(dialogue, Max(0, budget - Cost(system)))
  }

  lemma SelectUnfolds(ms: seq<LLMMessage>, system: bool)
    ensures Select(ms, system) ==
            if ms == [] then []
            else (if IsSystem(ms[0]) == system then [ms[0]] else []) + Select(ms[1..], system)
  {
  }

  lemma {:induction false} SelectConcat(a: seq<LLMMessage>, b: seq<LLMMessage>, system: bool)
    ensures Select(a + b, system) == Select(a, system) + Select(b, system)
  {
    hide Select;
    SelectUnfolds([], system);
    if a == [] {
      assert a + b == b && [] + Select(b, system) == Select(b, system);
    } else {
      SelectConcat(a[1..], b, system);
      SelectUnfolds(a, system);
      SelectUnfolds(a + b, system);
      assert (a + b)[0] == a[0] && (a + b)[1..] == a[1..] + b;
      Associates(if IsSystem(a[0]) == system then [a[0]] else [], Select(a[1..], system), Select(b, system));
    }
  }

  lemma {:induction false} SelectUniform(ms: seq<LLMMessage>, system: bool)
    requires forall i :: 0 <= i < |ms| ==> IsSystem(ms[i]) == system
    ensures Select(ms, system) == ms && Select(ms, !system) == []
  {
    if ms != [] {
      SelectUniform(ms[1..], system);
    }
  }

  lemma {:induction false} SelectKind(ms: seq<LLMMessage>, system: bool)
    ensures forall i :: 0 <= i < |Select(ms, system)| ==> IsSystem(Select(ms, system)[i]) == system
    ensures |Select(ms, system)| + |Select(ms, !system)| == |ms|
  {
    if ms != [] {
      SelectKind(ms[1..], system);
    }
  }

  lemma FitSystemKind(ms: seq<LLMMessage>, budget: int)
    requires forall i :: 0 <= i < |ms| ==> IsSystem(ms[i])
    ensures |FitSystem(ms, budget)| == |ms|
    ensures forall i :: 0 <= i < |ms| ==> IsSystem(FitSystem(ms, budget)[i])
  {
    if ms != [] {
      FitAllBounds(ms, PerMessage(|ms|, budget));
    }
  }

  lemma SelectDialogueKind(ms: seq<LLMMessage>, remaining: int)
    requires forall i :: 0 <= i < |ms| ==> !IsSystem(ms[i])
    ensures |SelectDialogue(ms, remaining)| <= |ms|
    ensures forall i :: 0 <= i < |SelectDialogue(ms, remaining)| ==>
              !IsSystem(SelectDialogue(ms, remaining)[i])
  {
    if ms != [] {
      var _ := TruncateFits(ms[|ms| - 1], remaining);
    }
  }

  /** The two halves of a trimmed prompt are again its system and its dialogue part. */
  lemma TrimmedParts(ms: seq<LLMMessage>, budget: int)
    ensures Select(Trimmed(ms, budget), true) == FitSystem(Select(ms, true), SystemBudget(budget))
    ensures Select(Trimmed(ms, budget), false)
         == SelectDialogue(Select(ms, false), RemainingBudget(ms, budget))
    ensures |Select(Trimmed(ms, budget), true)| == |Select(ms, true)|
    ensures |Select(Trimmed(ms, budget), false)| <= |Select(ms, false)|
  {
    hide Select, FitSystem, SelectDialogue, SystemBudget, Cost;
    SelectKind(ms, true);
    SelectKind(ms, false);
    FitSystemKind(Select(ms, true), SystemBudget(budget));
    SelectDialogueKind(Select(ms, false), RemainingBudget(ms, budget));
    PartsOf(FitSystem(Select(ms, true), SystemBudget(budget)),
            SelectDialogue(Select(ms, false), RemainingBudget(ms, budget)));
  }

  lemma PartsOf(system: seq<LLMMessage>, dialogue: seq<LLMMessage>)
    requires forall i :: 0 <= i < |system| ==> IsSystem(system[i])
    requires forall i :: 0 <= i < |dialogue| ==> !IsSystem(dialogue[i])
    ensures Select(system + dialogue, true) == system
    ensures Select(system + dialogue, false) == dialogue
  {
    SelectUniform(system, true);
    SelectUniform(dialogue, false);
    SelectConcat(system, dialogue, true);
    SelectConcat(system, dialogue, false);
  }

  /** The whole prompt costs at most the budget, or 30 tokens more than its system part. */
  lemma TrimmedIsBounded(ms: seq<LLMMessage>, budget: int)
    ensures var system := Cost(FitSystem(Select(ms, true), SystemBudget(budget)));
            Cost(Trimmed(ms, budget)) <= Max(budget, system + 30)
  {
    hide Select, FitSystem, SystemBudget, Cost, Join;
    JoinIsBounded(FitSystem(Select(ms, true), SystemBudget(budget)), Select(ms, false), budget);
  }

  lemma JoinIsBounded(system: seq<LLMMessage>, dialogue: seq<LLMMessage>, budget: int)
    ensures Cost(Join(system, dialogue, budget)) <= Max(budget, Cost(system) + 30)
  {
    hide Cost, SelectDialogue;
    var room := Max(0, budget - Cost(system));
    DialogueCost(dialogue, room);
    CostSplit(system, SelectDialogue(dialogue, room));
  }

  /** A budget that covers the floors of both parts is never exceeded. */
  lemma AmpleBudgetSuffices(ms: seq<LLMMessage>, budget: int)
    requires budget >= Max(512, 128 * |Select(ms, true)|) + 30
    ensures Cost(Trimmed(ms, budget)) <= budget
  {
    hide Select, FitSystem, Trimmed, Cost;
    SystemPartIsBounded(Select(ms, true), budget);
    TrimmedIsBounded(ms, budget);
  }

  // ---------------------------------------------------------------- when the budget is kept

  /** What a system message costs after it was fitted into `limit` tokens, from its own text. */
  function ChargeOf(m: LLMMessage, limit: int): int
    requires limit >= 128
  {
    if EstimateMessage(m) <= limit then EstimateMessage(m)
    else MESSAGE_OVERHEAD + (|PyText.RStrip(m.content[..CHARS_PER_TOKEN * (limit - MESSAGE_OVERHEAD) - 59])| + 61) / CHARS_PER_TOKEN
  }

  function TotalCharge(ms: seq<LLMMessage>, limit: int): int
    requires limit >= 128
  {
    if ms == [] then 0 else TotalCharge(ms[..|ms| - 1], limit) + ChargeOf(ms[|ms| - 1], limit)
  }

  function SystemCharge(ms: seq<LLMMessage>, budget: int): int {
    if ms == [] then 0 else TotalCharge(ms, PerMessage(|ms|, budget))
  }

  lemma ChargeIsCost(m: LLMMessage, limit: int)
    requires limit >= 128
    ensures EstimateMessage(FitOne(m, limit)) == ChargeOf(m, limit)
  {
    assert |TRUNCATION_MARKER| == 59;
  }

  lemma {:induction false} TotalChargeIsCost(ms: seq<LLMMessage>, limit: int)
    requires limit >= 128
    ensures Cost(FitAll(ms, limit)) == TotalCharge(ms, limit)
  {
    if ms != [] {
      var init, last := ms[..|ms| - 1], ms[|ms| - 1];
      TotalChargeIsCost(init, limit);
      ChargeIsCost(last, limit);
      CostSnoc(FitAll(init, limit), FitOne(last, limit));
    }
  }

  lemma CostSnoc(ms: seq<LLMMessage>, m: LLMMessage)
    ensures Cost(ms + [m]) == Cost(ms) + EstimateMessage(m)
  {
    assert (ms + [m])[..|ms|] == ms;
  }

  lemma SystemChargeIsCost(ms: seq<LLMMessage>, budget: int)
    ensures Cost(FitSystem(ms, budget)) == SystemCharge(ms, budget)
  {
    if ms != [] {
      TotalChargeIsCost(ms, PerMessage(|ms|, budget));
    }
  }

  /** Whether the newest message can be made to fit into `room` tokens: it does so as it is; from
      30 tokens on truncation makes every message fit; at 28 and 29 tokens only a long message
      whose first five characters are short enough after stripping; below that none. */
  predicate NewestFits(dialogue: seq<LLMMessage>, room: int) {
    dialogue == [] ||
    var newest := dialogue[|dialogue| - 1];
    || EstimateMessage(newest) <= room
    || room >= 30
    || (|newest.content| > 64 && |PyText.RStrip(newest.content[..5])| <= 3 * (room - 28) + 1)
  }

  lemma TruncatedFitsIff(m: LLMMessage, room: int)
    requires EstimateMessage(m) > room
    ensures EstimateMessage(TruncateMessage(m, room)) <= room <==>
              || room >= 30
              || (|m.content| > 64 && |PyText.RStrip(m.content[..5])| <= 3 * (room - 28) + 1)
  {
    assert |TRUNCATION_MARKER| == 59;
    var _ := TruncateFits(m, room);
  }

  lemma DialogueFitsIff(dialogue: seq<LLMMessage>, room: nat)
    ensures Cost(SelectDialogue(dialogue, room)) <= room <==> NewestFits(dialogue, room)
  {
    if dialogue != [] {
      var newest := dialogue[|dialogue| - 1];
      if EstimateMessage(newest) <= room {
        KeptIsLongestSuffix(dialogue, room, FirstKept(dialogue, room));
      } else {
        TruncatedFitsIff(newest, room);
        CostSnoc([], TruncateMessage(newest, room));
        assert [] + [TruncateMessage(newest, room)] == [TruncateMessage(newest, room)];
      }
    }
  }

  /** Exactly when the estimate stays within the budget itself: the charge for the system
      messages must fit, and the newest message must fit into what is left. */
  lemma WithinBudgetIff(ms: seq<LLMMessage>, budget: int)
    ensures Cost(Trimmed(ms, budget)) <= budget <==>
            var room := budget - SystemCharge(Select(ms, true), SystemBudget(budget));
            room >= 0 && NewestFits(Select(ms, false), room)
  {
    hide Select, FitSystem, SystemBudget, SystemCharge, Cost, Join, NewestFits;
    SystemChargeIsCost(Select(ms, true), SystemBudget(budget));
    JoinFitsIff(FitSystem(Select(ms, true), SystemBudget(budget)), Select(ms, false), budget);
  }

  lemma JoinFitsIff(system: seq<LLMMessage>, dialogue: seq<LLMMessage>, budget: int)
    ensures Cost(Join(system, dialogue, budget)) <= budget <==>
            budget >= Cost(system) && NewestFits(dialogue, budget - Cost(system))
  {
    hide Cost, SelectDialogue, NewestFits;
    var room := Max(0, budget - Cost(system));
    CostSplit(system, SelectDialogue(dialogue, room));
    DialogueFitsIff(dialogue, room);
  }

  /** A prompt whose newest message never fits: two characters against an empty budget. */
  lemma BudgetCanBeExceeded()
    ensures var ms := [PlainMessage(User, "hi")];
            Cost(Trimmed(ms, 0)) == 9
  {
    var m := PlainMessage(User, "hi");
    var ms := [m];
    assert Select(ms[1..], true) == [] && Select(ms[1..], false) == [];
    assert Select(ms, true) == [] && Select(ms, false) == [m];
    var _ := TruncateFits(m, 0);
    assert Trimmed(ms, 0) == [m];
    assert [m][..0] == [];
  }

  lemma FitSystemIsStable(ms: seq<LLMMessage>, budget: int)
    ensures FitSystem(FitSystem(ms, budget), budget) == FitSystem(ms, budget)
    ensures TruncatedCount(FitSystem(ms, budget), budget) == 0
  {
    if ms != [] {
      var limit := PerMessage(|ms|, budget);
      FitAllBounds(ms, limit);
      FitAllIsIdentity(FitAll(ms, limit), limit);
    }
  }

  /** Trimming a trimmed prompt to the same budget changes nothing and truncates nothing. */
  lemma TrimIsIdempotent(ms: seq<LLMMessage>, budget: int)
    ensures Trimmed(Trimmed(ms, budget), budget) == Trimmed(ms, budget)
    ensures TruncatedCount(Select(Trimmed(ms, budget), true), SystemBudget(budget)) == 0
  {
    hide Select, FitSystem, SystemBudget, SelectDialogue, TruncatedCount, Cost;
    var t := Trimmed(ms, budget);
    TrimmedParts(ms, budget);
    FitSystemIsStable(Select(ms, true), SystemBudget(budget));
    assert FitSystem(Select(t, true), SystemBudget(budget)) == Select(t, true);
    assert RemainingBudget(t, budget) == RemainingBudget(ms, budget);
    DialogueIsStable(Select(ms, false), RemainingBudget(ms, budget));
    assert SelectDialogue(Select(t, false), RemainingBudget(t, budget)) == Select(t, false);
  }

  /** What survives of the dialogue: the longest suffix that fits, or the newest message alone. */
  lemma DialogueIsNewestPart(ms: seq<LLMMessage>, budget: int, k: nat)
    requires k <= |Select(ms, false)|
    ensures var dialogue := Select(ms, false);
            var room := RemainingBudget(ms, budget);
            var kept := Select(Trimmed(ms, budget), false);
            if dialogue == [] then kept == []
            else if EstimateMessage(dialogue[|dialogue| - 1]) > room then
              kept == [TruncateMessage(dialogue[|dialogue| - 1], room)]
            else
              && |kept| <= |dialogue|
              && kept == dialogue[|dialogue| - |kept|..]
              && (Cost(dialogue[k..]) <= room <==> |dialogue| - k <= |kept|)
  {
    hide Select, Trimmed, FitSystem, Cost, EstimateMessage, TruncateMessage;
    TrimmedParts(ms, budget);
    KeptIsLongestSuffix(Select(ms, false), RemainingBudget(ms, budget), k);
  }

  // ---------------------------------------------------------------- where the messages go

  lemma {:induction false} FitAllAt(ms: seq<LLMMessage>, limit: int)
    ensures |FitAll(ms, limit)| == |ms|
    ensures forall i :: 0 <= i < |ms| ==> FitAll(ms, limit)[i] == FitOne(ms[i], limit)
  {
    hide FitOne;
    if ms != [] {
      FitAllAt(ms[..|ms| - 1], limit);
    }
  }

  /** The trimmed prompt begins with the system messages, all of them and in their order, each whole
      or cut to an equal share of the larger of 512 tokens and 55 percent of the budget, which is at
      least 128 tokens; no system message comes later. */
  lemma SystemComesFirst(ms: seq<LLMMessage>, budget: int)
    ensures var system, trimmed := Select(ms, true), Trimmed(ms, budget);
            && |system| <= |trimmed|
            && (forall i :: 0 <= i < |trimmed| ==> (trimmed[i].role == System <==> i < |system|))
            && (forall i :: 0 <= i < |system| ==>
                  var share := Max(128, Max(512, 11 * budget / 20) / |system|);
                  trimmed[i] == if EstimateMessage(system[i]) <= share then system[i]
                                else TruncateMessage(system[i], share))
  {
    hide Select, FitSystem, SelectDialogue, SystemBudget, Cost, EstimateMessage, TruncateMessage;
    var system, dialogue := Select(ms, true), Select(ms, false);
    var fitted := FitSystem(system, SystemBudget(budget));
    var chosen := SelectDialogue(dialogue, Max(0, budget - Cost(fitted)));
    SelectKind(ms, true);
    SelectKind(ms, false);
    FitSystemAt(system, budget);
    FitSystemKind(system, SystemBudget(budget));
    SelectDialogueKind(dialogue, Max(0, budget - Cost(fitted)));
    assert Trimmed(ms, budget) == fitted + chosen;
  }

  lemma FitSystemAt(ms: seq<LLMMessage>, budget: int)
    ensures |FitSystem(ms, SystemBudget(budget))| == |ms|
    ensures forall i :: 0 <= i < |ms| ==>
              var share := Max(128, Max(512, 11 * budget / 20) / |ms|);
              FitSystem(ms, SystemBudget(budget))[i] ==
              if EstimateMessage(ms[i]) <= share then ms[i] else TruncateMessage(ms[i], share)
  {
    hide FitAll, EstimateMessage, TruncateMessage;
    if ms != [] {
      FitAllAt(ms, PerMessage(|ms|, SystemBudget(budget)));
    }
  }

  /** The positions at which the two lists differ. */
  function Changed(ms: seq<LLMMessage>, fitted: seq<LLMMessage>): set<nat>
    requires |ms| <= |fitted|
  {
    set i: nat | i < |ms| && fitted[i] != ms[i]
  }

  lemma {:induction false} OversizedAreChanged(ms: seq<LLMMessage>, limit: int)
    requires limit >= 128
    ensures |FitAll(ms, limit)| == |ms|
    ensures Oversized(ms, limit) == |Changed(ms, FitAll(ms, limit))|
  {
    hide FitOne, EstimateMessage, Changed;
    if ms == [] {
      NothingChanged();
    } else {
      var init, last := ms[..|ms| - 1], ms[|ms| - 1];
      OversizedAreChanged(init, limit);
      OneIsChanged(last, limit);
      OneMoreChanged(init, FitAll(init, limit), last, FitOne(last, limit));
      assert ms == init + [last];
    }
  }

  lemma NothingChanged()
    ensures Changed([], []) == {}
  {
  }

  lemma OneMoreChanged(ms: seq<LLMMessage>, fitted: seq<LLMMessage>, m: LLMMessage, f: LLMMessage)
    requires |ms| == |fitted|
    ensures |Changed(ms + [m], fitted + [f])| == |Changed(ms, fitted)| + if f == m then 0 else 1
  {
    var before, after := Changed(ms, fitted), Changed(ms + [m], fitted + [f]);
    assert after == before + if f == m then {} else {|ms|};
  }

  lemma OneIsChanged(m: LLMMessage, limit: int)
    requires limit >= 128
    ensures FitOne(m, limit) != m <==> EstimateMessage(m) > limit
  {
    EstimateIsLeast(m);
    var _ := TruncateFits(m, limit);
  }

  /** The number of truncated system messages is that of those that come out changed. */
  lemma TruncatedAreChanged(ms: seq<LLMMessage>, budget: int)
    ensures |Select(ms, true)| <= |Trimmed(ms, budget)|
    ensures TruncatedCount(Select(ms, true), SystemBudget(budget)) == |Changed(Select(ms, true), Trimmed(ms, budget))|
  {
    hide Select, SelectDialogue, Oversized, FitAll, Cost;
    var system := Select(ms, true);
    var fitted := FitSystem(system, SystemBudget(budget));
    var dialogue := SelectDialogue(Select(ms, false), Max(0, budget - Cost(fitted)));
    FittedAreChanged(system, SystemBudget(budget));
    hide FitSystem, TruncatedCount;
    assert Trimmed(ms, budget) == fitted + dialogue;
    ChangedInFront(system, fitted, dialogue);
  }

  lemma FittedAreChanged(ms: seq<LLMMessage>, budget: int)
    ensures |FitSystem(ms, budget)| == |ms|
    ensures TruncatedCount(ms, budget) == |Changed(ms, FitSystem(ms, budget))|
  {
    if ms == [] {
      assert Changed(ms, FitSystem(ms, budget)) == {};
    } else {
      OversizedAreChanged(ms, PerMessage(|ms|, budget));
    }
  }

  lemma ChangedInFront(ms: seq<LLMMessage>, fitted: seq<LLMMessage>, rest: seq<LLMMessage>)
    requires |ms| == |fitted|
    ensures Changed(ms, fitted + rest) == Changed(ms, fitted)
  {
  }

  // ---------------------------------------------------------------- the loops of the source

  method FitSystemMessages(messages: seq<LLMMessage>, budget: int)
    returns (selected: seq<LLMMessage>, truncated: nat)
    ensures selected == FitSystem(messages, budget)
    ensures truncated == TruncatedCount(messages, budget)
  {
    selected, truncated := [], 0;
    if messages == [] {
      return;
    }
    var limit := Max(128, budget / |messages|);
    for i := 0 to |messages|
      invariant selected == FitAll(messages[..i], limit)
      invariant truncated == Oversized(messages[..i], limit)
    {
      assert messages[..i + 1][..i] == messages[..i];
      if EstimateMessage(messages[i]) <= limit {
        selected := selected + [messages[i]];
      } else {
        selected := selected + [TruncateMessage(messages[i], limit)];
        truncated := truncated + 1;
      }
    }
    assert messages[..|messages|] == messages;
  }

  /** Where the loop over the dialogue stands: positions from `i` on are done. */
  ghost predicate Choosing(dialogue: seq<LLMMessage>, room: nat, i: nat, remaining: int, selected: seq<LLMMessage>) {
    && i <= |dialogue|
    && 0 <= remaining
    && if i == |dialogue| then selected == [] && remaining == room
       else
         && selected != []
         && if EstimateMessage(dialogue[|dialogue| - 1]) <= room then
              && Reverse(selected) == dialogue[i..]
              && FirstKept(dialogue, room) == FirstKept(dialogue[..i], remaining)
            else selected == [TruncateMessage(dialogue[|dialogue| - 1], room)] && remaining == 0
  }

  lemma FirstKeptUnfolds(dialogue: seq<LLMMessage>, i: nat, remaining: int)
    requires 0 < i <= |dialogue|
    ensures FirstKept(dialogue[..i], remaining) ==
            if EstimateMessage(dialogue[i - 1]) > remaining then i
            else FirstKept(dialogue[..i - 1], remaining - EstimateMessage(dialogue[i - 1]))
  {
    assert dialogue[..i][..i - 1] == dialogue[..i - 1];
  }

  lemma ReverseSnoc(selected: seq<LLMMessage>, m: LLMMessage, rest: seq<LLMMessage>)
    requires Reverse(selected) == rest
    ensures Reverse(selected + [m]) == [m] + rest
  {
    ReverseConcat(selected, [m]);
    assert Reverse([m]) == [m];
  }

  lemma ChooseNewest(dialogue: seq<LLMMessage>, room: nat)
    requires dialogue != []
    ensures var newest := dialogue[|dialogue| - 1];
            && (EstimateMessage(newest) <= room ==>
                  Choosing(dialogue, room, |dialogue| - 1, room - EstimateMessage(newest), [newest]))
            && (EstimateMessage(newest) > room ==>
                  Choosing(dialogue, room, |dialogue| - 1, 0, [TruncateMessage(newest, room)]))
  {
    FirstKeptUnfolds(dialogue, |dialogue|, room);
    assert dialogue[..|dialogue|] == dialogue;
    ReverseSnoc([], dialogue[|dialogue| - 1], []);
    assert [] + [dialogue[|dialogue| - 1]] == [dialogue[|dialogue| - 1]] + [] == dialogue[|dialogue| - 1..];
  }

  lemma ChooseNext(dialogue: seq<LLMMessage>, room: nat, i: nat, remaining: int, selected: seq<LLMMessage>)
    requires 0 < i < |dialogue| && Choosing(dialogue, room, i, remaining, selected)
    requires EstimateMessage(dialogue[i - 1]) <= remaining
    ensures Choosing(dialogue, room, i - 1, remaining - EstimateMessage(dialogue[i - 1]), selected + [dialogue[i - 1]])
  {
    FirstKeptUnfolds(dialogue, i, remaining);
    ReverseSnoc(selected, dialogue[i - 1], dialogue[i..]);
    assert [dialogue[i - 1]] + dialogue[i..] == dialogue[i - 1..];
  }

  lemma ChosenAtEnd(dialogue: seq<LLMMessage>, room: nat, i: nat, remaining: int, selected: seq<LLMMessage>)
    requires Choosing(dialogue, room, i, remaining, selected)
    requires i > 0 ==> i < |dialogue| && EstimateMessage(dialogue[i - 1]) > remaining
    ensures Reverse(selected) == SelectDialogue(dialogue, room)
  {
    if dialogue != [] {
      if i > 0 {
        FirstKeptUnfolds(dialogue, i, remaining);
      }
      if EstimateMessage(dialogue[|dialogue| - 1]) > room {
        ReverseSnoc([], selected[0], []);
        assert [] + selected == selected;
      }
    }
  }

  method ChooseDialogue(dialogue: seq<LLMMessage>, room: nat) returns (selected: seq<LLMMessage>)
    ensures selected == SelectDialogue(dialogue, room)
  {
    selected := [];
    var remaining := room;
    var i := |dialogue|;
    while i > 0
      invariant 0 <= i <= |dialogue| && Choosing(dialogue, room, i, remaining, selected)
    {
      var message := dialogue[i - 1];
      var cost := EstimateMessage(message);
      if cost > remaining && selected != [] {
        break;
      }
      if i == |dialogue| {
        ChooseNewest(dialogue, room);
        assert [] + [message] == [message] && [] + [TruncateMessage(message, remaining)] == [TruncateMessage(message, remaining)];
      } else {
        ChooseNext(dialogue, room, i, remaining, selected);
      }
      selected := selected + [if cost <= remaining then message else TruncateMessage(message, remaining)];
      remaining := Max(0, remaining - Min(cost, remaining));
      i := i - 1;
    }
    ChosenAtEnd(dialogue, room, i, remaining, selected);
    selected := Reverse(selected);
  }

  /** `PromptTokenBudgeter.trim` */
  method Trim(messages: seq<LLMMessage>, tokenBudget: int) returns (r: PromptBudgetResult)
    ensures r.messages == Trimmed(messages, tokenBudget)
    ensures r.estimatedTokens == Cost(r.messages)
    ensures r.droppedMessages == |Select(messages, false)| - |Select(r.messages, false)|
    ensures r.truncatedSystemMessages == TruncatedCount(Select(messages, true), SystemBudget(tokenBudget))
  {
    if messages == [] {
      return PromptBudgetResult([], 0, 0, 0);
    }
    var system := Select(messages, true);
    var dialogue := Select(messages, false);
    var selectedSystem, truncated := FitSystemMessages(system, Max(512, 11 * tokenBudget / 20));
    var used := Cost(selectedSystem);
    var selectedDialogue := ChooseDialogue(dialogue, Max(0, tokenBudget - used));
    var result := selectedSystem + selectedDialogue;
    assert selectedSystem == FitSystem(system, SystemBudget(tokenBudget));
    assert selectedDialogue == SelectDialogue(dialogue, RemainingBudget(messages, tokenBudget));
    assert result == Trimmed(messages, tokenBudget);
    TrimmedParts(messages, tokenBudget);
    SelectKind(messages, true);
    SelectKind(result, true);
    r := PromptBudgetResult(result, Cost(result), Max(0, |messages| - |result|), truncated);
  }
}
