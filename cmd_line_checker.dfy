/**
 * TCmdLineChecker: validates the options of the command line, given as a
 * std::map from option name to the list of values it was given with. Each
 * rule appends its message to an error string and erases the option it
 * examined; whatever is left at the end is an unknown option.
 */
module CmdLineChecker {
  import opened Wrappers
  import opened StdMap
  import opened Strings

  /** The option map: option name to the values it was given with, in key order. */
  type ArgsMap = seq<Entry<seq<string>>>

  /** TOptionType: otNoValue, otSingleValue, otMultyValue. */
  datatype OptionType = NoValue | SingleValue | MultiValue

  function CannotHaveValue(option: string): string { "Option --" + option + " cannot have value.\n" }
  function OnlyOne(option: string): string { "Option --" + option + " can be only one.\n" }
  function MustHaveValue(option: string): string { "Option --" + option + " must have value.\n" }
  function Incompatible(option1: string, option2: string): string
  {
    "Options --" + option1 + " and --" + option2 + " are incompatible.\n"
  }
  function UnknownOption(option: string): string { "Unknown option: --" + option + ".\n" }

  /** How many values each option type admits. */
  predicate CountOk(t: OptionType, n: nat)
  {
    match t
    case NoValue => n == 0
    case SingleValue => n == 1
    case MultiValue => n >= 1
  }

  /** The text check(option, type) appends for an option present with n values. */
  function Message(option: string, t: OptionType, n: nat): (r: string)
    ensures r == "" <==> CountOk(t, n)
  {
    var mustHave := if n == 0 then MustHaveValue(option) else "";
    match t
    case NoValue => if n != 0 then CannotHaveValue(option) else ""
    case SingleValue => (if n > 1 then OnlyOne(option) else "") + mustHave
    case MultiValue => mustHave
  }

  /**
   * The messages of each type. otSingleValue falls through into the
   * otMultyValue case, so both of its tests run; at most one of them
   * succeeds, so "can be only one" and "must have value" never come together.
   */
  lemma MessageCases(option: string, t: OptionType, n: nat)
    ensures t == NoValue ==> Message(option, t, n) == if n > 0 then CannotHaveValue(option) else ""
    ensures t == SingleValue ==>
              Message(option, t, n) == if n > 1 then OnlyOne(option) else if n == 0 then MustHaveValue(option) else ""
    ensures t == MultiValue ==> Message(option, t, n) == if n == 0 then MustHaveValue(option) else ""
  {
  }

  // ---------------------------------------------------------------------------
  // The checker as a state machine

  /** A checker's fields: the remaining options and the error text so far. */
  datatype State = State(args: ArgsMap, errors: string)

  datatype Rule = Rule(option: string, t: OptionType)

  /** The message a rule gives for a map; nothing when its option is absent. */
  function RuleMessage(m: ArgsMap, r: Rule): string
  {
    match Get(m, r.option)
    case None => ""
    case Some(vs) => Message(r.option, r.t, |vs|)
  }

  /** check(option, type): a present option gets its message and is erased; an absent one changes nothing. */
  function StepCheck(s: State, r: Rule): (n: State)
    requires Valid(s.args)
    ensures Valid(n.args)
    ensures r.option !in Keys(s.args) ==> n == s
    ensures Keys(n.args) == Keys(s.args) - {r.option}
  {
    if r.option in Keys(s.args) then State(Remove(s.args, r.option), s.errors + RuleMessage(s.args, r)) else s
  }

  /**
   * One rule only ever appends, and it appends something exactly when its
   * option is present with a number of values its type does not admit.
   */
  lemma StepCheckAppends(s: State, r: Rule)
    requires Valid(s.args)
    ensures |StepCheck(s, r).errors| >= |s.errors| && StepCheck(s, r).errors[..|s.errors|] == s.errors
    ensures StepCheck(s, r).errors != s.errors <==>
      r.option in Keys(s.args) && !CountOk(r.t, |Get(s.args, r.option).value|)
  {
    var e := StepCheck(s, r).errors;
    assert e == s.errors + RuleMessage(s.args, r);
    assert e[..|s.errors|] == s.errors;
    if e == s.errors {
      assert |RuleMessage(s.args, r)| == 0;
    }
  }

  /** checkIncompatible(option1, option2): a message when both are present; the map is not touched. */
  function StepIncompatible(s: State, option1: string, option2: string): (r: State)
    ensures r.args == s.args
    ensures |r.errors| >= |s.errors| && r.errors[..|s.errors|] == s.errors
    ensures r.errors != s.errors <==> option1 in Keys(s.args) && option2 in Keys(s.args)
  {
    if option1 in Keys(s.args) && option2 in Keys(s.args) then State(s.args, s.errors + Incompatible(option1, option2))
    else s
  }

  /** One "Unknown option" message per entry, in map order. */
  function Unknowns(m: ArgsMap): (r: string)
    ensures r == "" <==> m == []
    decreases |m|
  {
    if m == [] then "" else Unknowns(m[..|m| - 1]) + UnknownOption(m[|m| - 1].key)
  }

  /** The rule calls of the static check, in their order. */
  const Rules: seq<Rule> := [
    Rule("version",  NoValue),
    Rule("help",     NoValue),
    Rule("verbose",  NoValue),
    Rule("logfile",  SingleValue),
    Rule("backup",   NoValue),
    Rule("nobackup", NoValue),
    Rule("force",    NoValue),
    Rule("qt-dir",   SingleValue),
    Rule("new-dir",  SingleValue),
    Rule("old-dir",  MultiValue)
  ]

  /** The rule calls one after another. */
  function Apply(s: State, rules: seq<Rule>): (n: State)
    requires Valid(s.args)
    ensures Valid(n.args)
    decreases |rules|
  {
    if rules == [] then s else Apply(StepCheck(s, rules[0]), rules[1..])
  }

  /** What the static check returns for an option map. */
  function CheckSpec(argsMap: ArgsMap): string
    requires Valid(argsMap)
  {
    var s := Apply(StepIncompatible(State(argsMap, ""), "backup", "nobackup"), Rules);
    s.errors + Unknowns(s.args)
  }

  // ---------------------------------------------------------------------------
  // What the static check computes

  function RuleMessages(m: ArgsMap, rules: seq<Rule>): string
    decreases |rules|
  {
    if rules == [] then "" else RuleMessage(m, rules[0]) + RuleMessages(m, rules[1..])
  }

  function Names(rules: seq<Rule>): set<string>
    decreases |rules|
  {
    if rules == [] then {} else {rules[0].option} + Names(rules[1..])
  }

  ghost predicate DistinctNames(rules: seq<Rule>)
  {
    forall i, j :: 0 <= i < j < |rules| ==> rules[i].option != rules[j].option
  }

  /** Rules that only look at other options give the same messages on maps that agree on their options. */
  lemma {:induction false} RuleMessagesFrame(m: ArgsMap, m': ArgsMap, rules: seq<Rule>)
    requires forall i :: 0 <= i < |rules| ==> Get(m, rules[i].option) == Get(m', rules[i].option)
    ensures RuleMessages(m, rules) == RuleMessages(m', rules)
    decreases |rules|
  {
    if rules != [] {
      assert Get(m, rules[0].option) == Get(m', rules[0].option);
      RuleMessagesFrame(m, m', rules[1..]);
    }
  }

  lemma {:induction false} NamesMembers(rules: seq<Rule>, k: string)
    ensures k in Names(rules) <==> exists i :: 0 <= i < |rules| && rules[i].option == k
    decreases |rules|
  {
    if rules != [] {
      NamesMembers(rules[1..], k);
      if k in Names(rules[1..]) {
        var i :| 0 <= i < |rules[1..]| && rules[1..][i].option == k;
        assert rules[i + 1].option == k;
      }
      if exists i :: 0 <= i < |rules| && rules[i].option == k {
        var i :| 0 <= i < |rules| && rules[i].option == k;
        if i > 0 {
          assert rules[1..][i - 1].option == k;
        }
      }
    }
  }

  /** Running the rules appends their messages computed on the map they started from. */
  lemma {:induction false} ApplyRulesErrors(s: State, rules: seq<Rule>)
    requires Valid(s.args) && DistinctNames(rules)
    ensures Apply(s, rules).errors == s.errors + RuleMessages(s.args, rules)
    decreases |rules|
  {
    if rules != [] {
      DistinctTail(rules);
      ApplyRulesErrors(StepCheck(s, rules[0]), rules[1..]);
      ApplyErrorsStep(s, rules);
    }
  }

  /** The induction step: the first rule's message, then the others' on the map it left. */
  lemma ApplyErrorsStep(s: State, rules: seq<Rule>)
    requires Valid(s.args) && DistinctNames(rules) && rules != []
    requires Apply(StepCheck(s, rules[0]), rules[1..]).errors ==
      StepCheck(s, rules[0]).errors + RuleMessages(StepCheck(s, rules[0]).args, rules[1..])
    ensures Apply(s, rules).errors == s.errors + RuleMessages(s.args, rules)
  {
    OtherRulesSee(s, rules);
    StepCheckErrors(s, rules[0]);
    var head, rest := RuleMessage(s.args, rules[0]), RuleMessages(s.args, rules[1..]);
    ConcatAssoc(s.errors, head, rest);
  }

  lemma DistinctTail(rules: seq<Rule>)
    requires DistinctNames(rules) && rules != []
    ensures DistinctNames(rules[1..])
  {
    forall i, j | 0 <= i < j < |rules[1..]| ensures rules[1..][i].option != rules[1..][j].option {
      assert rules[1..][i] == rules[i + 1] && rules[1..][j] == rules[j + 1];
    }
  }

  /** The error text after one rule: its message on the map it saw. */
  lemma StepCheckErrors(s: State, r: Rule)
    requires Valid(s.args)
    ensures StepCheck(s, r).errors == s.errors + RuleMessage(s.args, r)
  {
  }

  /** The first rule erases only its own option, which no later rule looks at. */
  lemma OtherRulesSee(s: State, rules: seq<Rule>)
    requires Valid(s.args) && DistinctNames(rules) && rules != []
    ensures RuleMessages(StepCheck(s, rules[0]).args, rules[1..]) == RuleMessages(s.args, rules[1..])
  {
    forall i | 0 <= i < |rules[1..]|
      ensures Get(StepCheck(s, rules[0]).args, rules[1..][i].option) == Get(s.args, rules[1..][i].option)
    {
      assert rules[1..][i] == rules[i + 1];
    }
    RuleMessagesFrame(StepCheck(s, rules[0]).args, s.args, rules[1..]);
  }

  /** The rules leave exactly the options none of them names. */
  lemma {:induction false} ApplyRulesArgs(s: State, rules: seq<Rule>)
    requires Valid(s.args)
    ensures Keys(Apply(s, rules).args) == Keys(s.args) - Names(rules)
    decreases |rules|
  {
    if rules != [] {
      ApplyRulesArgs(StepCheck(s, rules[0]), rules[1..]);
    }
  }

  /**
   * The order of the static check's messages: the incompatibility first,
   * the rules in the order of their calls, then one message for every
   * option no rule knows.
   */
  lemma CheckOrder(argsMap: ArgsMap, rules: seq<Rule>)
    requires Valid(argsMap) && DistinctNames(rules)
    ensures var s := Apply(StepIncompatible(State(argsMap, ""), "backup", "nobackup"), rules);
      s.errors + Unknowns(s.args) ==
        StepIncompatible(State(argsMap, ""), "backup", "nobackup").errors +
        RuleMessages(argsMap, rules) + Unknowns(s.args) &&
      Keys(s.args) == Keys(argsMap) - Names(rules)
  {
    ApplyRulesErrors(StepIncompatible(State(argsMap, ""), "backup", "nobackup"), rules);
    ApplyRulesArgs(StepIncompatible(State(argsMap, ""), "backup", "nobackup"), rules);
  }

  lemma CheckSpecOrder(argsMap: ArgsMap)
    requires Valid(argsMap)
    ensures var s := Apply(StepIncompatible(State(argsMap, ""), "backup", "nobackup"), Rules);
      CheckSpec(argsMap) ==
        StepIncompatible(State(argsMap, ""), "backup", "nobackup").errors +
        RuleMessages(argsMap, Rules) + Unknowns(s.args) &&
      Keys(s.args) == Keys(argsMap) - Names(Rules)
  {
    RulesDistinct();
    CheckOrder(argsMap, Rules);
  }

  lemma RulesDistinct()
    ensures DistinctNames(Rules)
  {
  }

  /** How the usage text classifies each option the program knows. */
  function KnownType(option: string): Option<OptionType>
  {
    if option in {"version", "help", "verbose", "backup", "nobackup", "force"} then Some(NoValue)
    else if option in {"logfile", "qt-dir", "new-dir"} then Some(SingleValue)
    else if option == "old-dir" then Some(MultiValue)
    else None
  }

  /** Every option is known and has an admissible number of values. */
  ghost predicate OptionsAcceptable(argsMap: ArgsMap)
  {
    forall o :: o in Keys(argsMap) ==>
      KnownType(o).Some? && Get(argsMap, o).Some? && CountOk(KnownType(o).value, |Get(argsMap, o).value|)
  }

  /** A command line the checker accepts: not both backup options, and only known options, each with an admissible number of values. */
  ghost predicate Acceptable(argsMap: ArgsMap)
  {
    !("backup" in Keys(argsMap) && "nobackup" in Keys(argsMap)) && OptionsAcceptable(argsMap)
  }

  /** Every rule checks its option with the type the usage text gives it. */
  lemma RulesTyped()
    ensures forall i :: 0 <= i < |Rules| ==> KnownType(Rules[i].option) == Some(Rules[i].t)
  {
  }

  /** The rules name exactly the known options. */
  lemma RulesNames(o: string)
    ensures o in Names(Rules) <==> KnownType(o).Some?
  {
    NamesMembers(Rules, o);
    if KnownType(o).Some? {
      KnownIsRule(o);
    } else {
      RulesTyped();
    }
  }

  lemma KnownIsRule(o: string)
    requires KnownType(o).Some?
    ensures exists i :: 0 <= i < |Rules| && Rules[i].option == o
  {
    var i := if o == "version" then 0 else if o == "help" then 1 else if o == "verbose" then 2
      else if o == "logfile" then 3 else if o == "backup" then 4 else if o == "nobackup" then 5
      else if o == "force" then 6 else if o == "qt-dir" then 7 else if o == "new-dir" then 8 else 9;
    assert Rules[i].option == o;
  }

  /** The messages of the rules are all empty exactly when each present option has an admissible number of values. */
  lemma {:induction false} RuleMessagesEmpty(m: ArgsMap, rules: seq<Rule>)
    ensures RuleMessages(m, rules) == "" <==>
      forall i :: 0 <= i < |rules| ==> RuleMessage(m, rules[i]) == ""
    decreases |rules|
  {
    if rules != [] {
      RuleMessagesEmpty(m, rules[1..]);
      assert forall i :: 1 <= i < |rules| ==> rules[i] == rules[1..][i - 1];
    }
  }

  /** The static check reports nothing exactly when no part of it does. */
  lemma CheckSpecParts(argsMap: ArgsMap)
    requires Valid(argsMap)
    ensures CheckSpec(argsMap) == "" <==>
      !("backup" in Keys(argsMap) && "nobackup" in Keys(argsMap)) &&
      RuleMessages(argsMap, Rules) == "" && Keys(argsMap) <= Names(Rules)
  {
    CheckSpecOrder(argsMap);
    EmptyIffNoKeys(Apply(StepIncompatible(State(argsMap, ""), "backup", "nobackup"), Rules).args);
  }

  /** The rules are all silent and know every option exactly when each option is known and has an admissible number of values. */
  lemma RulesAccept(argsMap: ArgsMap)
    ensures RuleMessages(argsMap, Rules) == "" && Keys(argsMap) <= Names(Rules) <==> OptionsAcceptable(argsMap)
  {
    RuleMessagesEmpty(argsMap, Rules);
    assert RuleMessages(argsMap, Rules) == "" <==> AllQuiet(argsMap);
    KnownNames(argsMap);
    if AllQuiet(argsMap) && AllKnown(argsMap) {
      QuietKnownAccepts(argsMap);
    }
    if OptionsAcceptable(argsMap) {
      AcceptsQuietKnown(argsMap);
    }
  }

  /** No rule of the static check has anything to say about m. */
  ghost predicate AllQuiet(m: ArgsMap)
  {
    forall i :: 0 <= i < |Rules| ==> RuleMessage(m, Rules[i]) == ""
  }

  /** Every option of m is one the static check knows. */
  ghost predicate AllKnown(m: ArgsMap)
  {
    forall o :: o in Keys(m) ==> KnownType(o).Some?
  }

  lemma KnownNames(m: ArgsMap)
    ensures Keys(m) <= Names(Rules) <==> AllKnown(m)
  {
    forall o ensures o in Names(Rules) <==> KnownType(o).Some? {
      RulesNames(o);
    }
  }

  /** A present option whose rule is silent has an acceptable number of values. */
  lemma QuietRuleAccepts(m: ArgsMap, o: string, i: nat)
    requires i < |Rules| && Rules[i].option == o && o in Keys(m) && RuleMessage(m, Rules[i]) == ""
    ensures KnownType(o).Some? && Get(m, o).Some? && CountOk(KnownType(o).value, |Get(m, o).value|)
  {
    RulesTyped();
  }

  lemma QuietKnownAccepts(m: ArgsMap)
    requires AllQuiet(m) && AllKnown(m)
    ensures OptionsAcceptable(m)
  {
    forall o | o in Keys(m)
      ensures KnownType(o).Some? && Get(m, o).Some? && CountOk(KnownType(o).value, |Get(m, o).value|)
    {
      KnownIsRule(o);
      var i :| 0 <= i < |Rules| && Rules[i].option == o;
      QuietRuleAccepts(m, o, i);
    }
  }

  /** On an acceptable map every rule is silent. */
  lemma AcceptedRuleQuiet(m: ArgsMap, i: nat)
    requires i < |Rules| && OptionsAcceptable(m)
    ensures RuleMessage(m, Rules[i]) == ""
  {
    RulesTyped();
    var o := Rules[i].option;
    if o in Keys(m) {
      assert KnownType(o) == Some(Rules[i].t);
    }
  }

  lemma AcceptsQuietKnown(m: ArgsMap)
    requires OptionsAcceptable(m)
    ensures AllQuiet(m) && AllKnown(m)
  {
    forall i | 0 <= i < |Rules| ensures RuleMessage(m, Rules[i]) == "" {
      AcceptedRuleQuiet(m, i);
    }
  }


  /** The static check reports nothing exactly for an acceptable command line. */
  lemma CheckSpecEmpty(argsMap: ArgsMap)
    requires Valid(argsMap)
    ensures CheckSpec(argsMap) == "" <==> Acceptable(argsMap)
  {
    CheckSpecParts(argsMap);
    RulesAccept(argsMap);
  }

  lemma PrefixOfAppend(a: string, b: string)
    ensures |a + b| >= |a| && (a + b)[..|a|] == a
  {
    assert (a + b)[..|a|] == a;
  }

  /** With both backup options the incompatibility is the first message. */
  lemma IncompatibleFirst(argsMap: ArgsMap)
    requires Valid(argsMap) && "backup" in Keys(argsMap) && "nobackup" in Keys(argsMap)
    ensures var msg := Incompatible("backup", "nobackup");
      |CheckSpec(argsMap)| >= |msg| && CheckSpec(argsMap)[..|msg|] == msg
  {
    CheckSpecOrder(argsMap);
    var msg := Incompatible("backup", "nobackup");
    var s := Apply(StepIncompatible(State(argsMap, ""), "backup", "nobackup"), Rules);
    assert StepIncompatible(State(argsMap, ""), "backup", "nobackup").errors == "" + msg;
    assert "" + msg == msg;
    var messages, unknowns := RuleMessages(argsMap, Rules), Unknowns(s.args);
    ConcatAssoc(msg, messages, unknowns);
    PrefixOfAppend(msg, messages + unknowns);
  }

  // ---------------------------------------------------------------------------
  // The checker object

  class Checker {
    var argsMap: ArgsMap
    var errorString: string

    /** The constructor copies the caller's map; the checker works on its own copy. */
    constructor (argsMap: ArgsMap)
      ensures this.argsMap == argsMap && errorString == ""
    {
      this.argsMap := argsMap;
      errorString := "";
    }

    /** check(option, optionType) */
    method Check(option: string, optionType: OptionType)
      requires Valid(argsMap)
      modifies this
      ensures State(argsMap, errorString) == StepCheck(old(State(argsMap, errorString)), Rule(option, optionType))
    {
      var found := Get(argsMap, option);
      if found.Some? {
        var values := found.value;
        MessageCases(option, optionType, |values|);
        match optionType {
        case NoValue =>
          if |values| != 0 {
            errorString := errorString + CannotHaveValue(option);
          }
        case SingleValue =>
          if |values| > 1 {
            errorString := errorString + OnlyOne(option);
          }
          // The C++ case has no break: the otMultyValue test follows.
          if |values| == 0 {
            errorString := errorString + MustHaveValue(option);
          }
        case MultiValue =>
          if |values| == 0 {
            errorString := errorString + MustHaveValue(option);
          }
        }
        argsMap := Remove(argsMap, option);
      }
    }

    /** checkIncompatible(option1, option2) */
    method CheckIncompatible(option1: string, option2: string)
      modifies this`errorString
      ensures State(argsMap, errorString) == StepIncompatible(old(State(argsMap, errorString)), option1, option2)
    {
      if Get(argsMap, option1).Some? && Get(argsMap, option2).Some? {
        errorString := errorString + Incompatible(option1, option2);
      }
    }

    /** endCheck: an "Unknown option" message for every option still in the map. */
    method EndCheck()
      modifies this`errorString
      ensures errorString == old(errorString) + Unknowns(argsMap)
    {
      for i := 0 to |argsMap|
        invariant errorString == old(errorString) + Unknowns(argsMap[..i])
      {
        assert argsMap[..i + 1][..i] == argsMap[..i];
        errorString := errorString + UnknownOption(argsMap[i].key);
      }
      assert argsMap[..|argsMap|] == argsMap;
    }

    /** The static check(argsMap): the rules on a fresh checker, then the unknown options. */
    static method CheckArgs(argsMap: ArgsMap) returns (errors: string)
      requires Valid(argsMap)
      ensures errors == CheckSpec(argsMap)
    {
      RulesListed();
      var checker := new Checker(argsMap);
      checker.CheckIncompatible("backup", "nobackup");
      ghost var s0 := State(checker.argsMap, checker.errorString);
      checker.Check("version", NoValue);
      ghost var s1 := State(checker.argsMap, checker.errorString);
      checker.Check("help", NoValue);
      ghost var s2 := State(checker.argsMap, checker.errorString);
      checker.Check("verbose", NoValue);
      ghost var s3 := State(checker.argsMap, checker.errorString);
      checker.Check("logfile", SingleValue);
      ghost var s4 := State(checker.argsMap, checker.errorString);
      checker.Check("backup", NoValue);
      ghost var s5 := State(checker.argsMap, checker.errorString);
      checker.Check("nobackup", NoValue);
      ghost var s6 := State(checker.argsMap, checker.errorString);
      checker.Check("force", NoValue);
      ghost var s7 := State(checker.argsMap, checker.errorString);
      checker.Check("qt-dir", SingleValue);
      ghost var s8 := State(checker.argsMap, checker.errorString);
      checker.Check("new-dir", SingleValue);
      ghost var s9 := State(checker.argsMap, checker.errorString);
      checker.Check("old-dir", MultiValue);
      ghost var s10 := State(checker.argsMap, checker.errorString);
      ApplyFirstFive(s0, s1, s2, s3, s4, s5);
      ApplyLastFive(s5, s6, s7, s8, s9, s10);
      checker.EndCheck();
      errors := checker.errorString;
    }
  }

  /** The rule list, entry by entry. */
  lemma RulesListed()
    ensures |Rules| == 10
    ensures Rules[0] == Rule("version", NoValue)
    ensures Rules[1] == Rule("help", NoValue)
    ensures Rules[2] == Rule("verbose", NoValue)
    ensures Rules[3] == Rule("logfile", SingleValue)
    ensures Rules[4] == Rule("backup", NoValue)
    ensures Rules[5] == Rule("nobackup", NoValue)
    ensures Rules[6] == Rule("force", NoValue)
    ensures Rules[7] == Rule("qt-dir", SingleValue)
    ensures Rules[8] == Rule("new-dir", SingleValue)
    ensures Rules[9] == Rule("old-dir", MultiValue)
  {
  }

  /** The first five option checks of the static check apply the first five rules. */
  lemma ApplyFirstFive(s0: State, s1: State, s2: State, s3: State, s4: State, s5: State)
    requires Valid(s0.args)
    requires s1 == StepCheck(s0, Rules[0])
    requires s2 == StepCheck(s1, Rules[1])
    requires s3 == StepCheck(s2, Rules[2])
    requires s4 == StepCheck(s3, Rules[3])
    requires s5 == StepCheck(s4, Rules[4])
    ensures Apply(s0, Rules) == Apply(s5, Rules[5..])
  {
    ApplyStep(s0, 0);
    ApplyStep(s1, 1);
    ApplyStep(s2, 2);
    ApplyStep(s3, 3);
    ApplyStep(s4, 4);
    assert Rules[0..] == Rules;
  }

  /** The last five option checks of the static check apply the remaining rules. */
  lemma ApplyLastFive(s5: State, s6: State, s7: State, s8: State, s9: State, s10: State)
    requires Valid(s5.args)
    requires s6 == StepCheck(s5, Rules[5])
    requires s7 == StepCheck(s6, Rules[6])
    requires s8 == StepCheck(s7, Rules[7])
    requires s9 == StepCheck(s8, Rules[8])
    requires s10 == StepCheck(s9, Rules[9])
    ensures Apply(s5, Rules[5..]) == s10
  {
    ApplyStep(s5, 5);
    ApplyStep(s6, 6);
    ApplyStep(s7, 7);
    ApplyStep(s8, 8);
    ApplyStep(s9, 9);
    assert Rules[10..] == [];
  }

  lemma ApplyStep(s: State, k: nat)
    requires Valid(s.args) && k < |Rules|
    ensures Apply(s, Rules[k..]) == Apply(StepCheck(s, Rules[k]), Rules[k + 1..])
  {
    assert Rules[k..][1..] == Rules[k + 1..];
  }
}
