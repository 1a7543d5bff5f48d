/**
 * Mains answer logging: the typed count of answers written today earns 25 XP
 * each, awarded as an untyped completion.
 */
module MainsTracker {
  import opened Wrappers
  import opened GameLogic
  import opened JsNumbers
  import opened Home

  const XpPerAnswer := 25

  /** The award for the typed count: none for `NaN` or a count of at most 0. */
  function MainsAward(input: string): (award: Option<int>)
    ensures award.Some? <==> ParseInt(input).Some? && ParseInt(input).value > 0
    ensures award.Some? ==> award.value == XpPerAnswer * ParseInt(input).value
    ensures award.Some? ==> award.value > 0 && award.value % XpPerAnswer == 0
  {
    match ParseInt(input)
    case None => None
    case Some(count) => if count <= 0 then None else Some(count * XpPerAnswer)
  }

  /** Typing the decimal form of a positive count earns 25 XP per answer; typing 0 earns nothing. */
  lemma MainsAwardOfCount(n: nat)
    ensures n > 0 ==> MainsAward(NatToString(n)) == Some(XpPerAnswer * n)
    ensures n == 0 ==> MainsAward(NatToString(n)).None?
  {
    ParseIntOfNatToString(n);
  }

  lemma ReadsFourAnswers()
    ensures TrimStart(" 4 answers") == "4 answers"
    ensures DigitPrefix("4 answers", 10) == 1
  {
    var t := "4 answers";
    assert " 4 answers"[1..] == t;
    assert t[0] == '4' && !IsJsWhitespace(t[0]);
    assert t[1..] == " answers" && !IsDigit(' ', 10);
  }

  /** Leading blanks and trailing text are ignored, the way `parseInt` reads its input. */
  lemma MainsAwardSkipsText()
    ensures MainsAward(" 4 answers") == Some(100)
  {
    ReadsFourAnswers();
    var t := "4 answers";
    assert t[..1] == "4" && "4"[..0] == "";
    assert ParseDigits(t, 10) == Some(4);
    assert ParseUnsigned(t) == Some(4);
  }

  /** A negative count earns nothing. */
  lemma MainsAwardRejectsNegative()
    ensures MainsAward("-2") == None
  {
    var s := "-2";
    assert s[0] == '-' && !IsJsWhitespace(s[0]);
    assert TrimStart(s) == s;
    assert s[1..] == "2" && "2"[1..] == "";
    assert DigitPrefix("2", 10) == 1;
    assert "2"[..1] == "2" && "2"[..0] == "";
    assert DigitsValue("2", 10) == 2;
    assert ParseInt(s) == Some(-2);
  }

  /** The form: its text field and the home screen that receives the award. */
  class MainsForm {
    const home: HomeState
    var questionsToday: string

    constructor (home: HomeState)
      ensures this.home == home && questionsToday == ""
    {
      this.home := home;
      questionsToday := "";
    }

    /**
     * `handleSubmit`: a valid count is awarded once, as a Mains completion,
     * and the field is cleared; anything else leaves everything as it was.
     */
    method HandleSubmit(roll: Roll) returns (awarded: Option<int>)
      requires Stocked(home.state.stats.inventory)
      modifies this, home.state
      ensures awarded == MainsAward(old(questionsToday))
      ensures awarded.None? ==> questionsToday == old(questionsToday) && home.state.stats == old(home.state.stats)
      ensures awarded.Some? ==>
                questionsToday == "" && home.state.stats == Completed(old(home.state.stats), awarded.value, None, roll)
    {
      var count := ParseInt(questionsToday);
      if count.None? || count.value <= 0 {
        return None;
      }
      var xpReward := count.value * XpPerAnswer;
      home.TaskCompletion(xpReward, None, roll);
      questionsToday := "";
      awarded := Some(xpReward);
    }
  }
}
