/**
 * `create_evaluation_name`: the run name is the date, an underscore and the
 * last `/`-separated segment of the model name, then `_max_exp<n>` when a
 * (truthy) expansion limit is given, then `_<key>_<value>` for every extra
 * keyword argument in the order given. Without a date, today's date (as
 * `YYYYMMDD`) is used; the clock is a parameter here.
 */
module Naming {
  import opened Wrappers

  /** The text after the last `/` (`model.split("/")[-1]`); the whole name when it has none. */
  function LastSegment(model: string): (r: string)
    ensures '/' !in r
    ensures |r| <= |model| && model[|model| - |r|..] == r
    ensures |r| == |model| || model[|model| - |r| - 1] == '/'
    decreases |model|
  {
    if model == [] then []
    else if model[|model| - 1] == '/' then []
    else
      var init := model[..|model| - 1];
      var seg := LastSegment(init);
      assert model[|model| - |seg| - 1..] == init[|init| - |seg|..] + [model[|model| - 1]];
      seg + [model[|model| - 1]]
  }

  function DigitChar(d: nat): char
    requires d < 10
  {
    "0123456789"[d]
  }

  function DigitValue(c: char): int {
    c as int - '0' as int
  }

  /** Decimal digits of a natural number, as `str` writes it. */
  function NatText(n: nat): (r: string)
    ensures |r| >= 1
    ensures forall i :: 0 <= i < |r| ==> '0' <= r[i] <= '9'
    decreases n
  {
    if n < 10 then [DigitChar(n)] else NatText(n / 10) + [DigitChar(n % 10)]
  }

  /** `str(n)` for an int: a minus sign before the digits of a negative number. */
  function IntText(n: int): string {
    if n < 0 then "-" + NatText(-n) else NatText(n)
  }

  /** Reads a string of decimal digits back as a number. */
  function ParseDigits(s: string): int
    decreases |s|
  {
    if s == [] then 0 else ParseDigits(s[..|s| - 1]) * 10 + DigitValue(s[|s| - 1])
  }

  /** Reads `str(n)` back. */
  function ParseIntText(s: string): int {
    if s != [] && s[0] == '-' then -ParseDigits(s[1..]) else ParseDigits(s)
  }

  lemma {:induction false} NatTextRoundTrip(n: nat)
    ensures ParseDigits(NatText(n)) == n
    decreases n
  {
    if n >= 10 {
      NatTextRoundTrip(n / 10);
      var t := NatText(n / 10) + [DigitChar(n % 10)];
      assert t[..|t| - 1] == NatText(n / 10);
    }
  }

  /** The number in a run name can be read back exactly. */
  lemma IntTextRoundTrip(n: int)
    ensures ParseIntText(IntText(n)) == n
  {
    if n < 0 {
      var digits := NatText(-n);
      NatTextRoundTrip(-n);
      var t := "-" + digits;
      assert t[0] == '-' && t[1..] == digits;
      assert IntText(n) == t;
    } else {
      var digits := NatText(n);
      NatTextRoundTrip(n);
      assert '0' <= digits[0] <= '9';
      assert IntText(n) == digits;
    }
  }

  /** The text one keyword argument adds. */
  function KwargText(kv: (string, string)): string {
    "_" + kv.0 + "_" + kv.1
  }

  /** The text all keyword arguments add, in order. */
  function KwargsText(kwargs: seq<(string, string)>): string
    decreases |kwargs|
  {
    if kwargs == [] then [] else KwargsText(kwargs[..|kwargs| - 1]) + KwargText(kwargs[|kwargs| - 1])
  }

  /** `if max_expansions:` — `None` and 0 are falsy. */
  function MaxExpansionsText(maxExpansions: Option<int>): (r: string)
    ensures r != [] <==> maxExpansions.Some? && maxExpansions.value != 0
  {
    match maxExpansions
    case Some(n) => if n != 0 then "_max_exp" + IntText(n) else []
    case None => []
  }

  /** `if date:` — a missing or empty date falls back to today's. */
  function DateText(date: string, today: string): string {
    if date != [] then date else today
  }

  /** The run name `create_evaluation_name` builds. */
  function EvaluationName(model: string, date: string, today: string, maxExpansions: Option<int>,
                          kwargs: seq<(string, string)>): string
  {
    DateText(date, today) + "_" + LastSegment(model) + MaxExpansionsText(maxExpansions) + KwargsText(kwargs)
  }

  /** A path prefix of the model never reaches the name: `a/b` and `b` end in the same segment. */
  lemma {:induction false} LastSegmentIgnoresPrefix(prefix: string, model: string)
    ensures LastSegment(prefix + "/" + model) == LastSegment(model)
    decreases |model|
  {
    var full := prefix + "/" + model;
    if model == [] {
      assert full[|full| - 1] == '/';
    } else {
      assert full[..|full| - 1] == prefix + "/" + model[..|model| - 1];
      assert full[|full| - 1] == model[|model| - 1];
      LastSegmentIgnoresPrefix(prefix, model[..|model| - 1]);
    }
  }

  /** Runs of the same model under different providers (`openai/gpt-4o`, `azure/gpt-4o`) get the same name. */
  lemma {:induction false} EvaluationNameIgnoresProvider(prefix: string, model: string, date: string, today: string,
                                                         maxExpansions: Option<int>, kwargs: seq<(string, string)>)
    ensures EvaluationName(prefix + "/" + model, date, today, maxExpansions, kwargs)
         == EvaluationName(model, date, today, maxExpansions, kwargs)
  {
    LastSegmentIgnoresPrefix(prefix, model);
  }

  /** Each further keyword argument appends exactly `_<key>_<value>` to the name. */
  lemma EvaluationNameShape(model: string, date: string, today: string, maxExpansions: Option<int>,
                            kwargs: seq<(string, string)>, more: (string, string))
    ensures EvaluationName(model, date, today, maxExpansions, kwargs + [more])
         == EvaluationName(model, date, today, maxExpansions, kwargs) + "_" + more.0 + "_" + more.1
  {
    var head := DateText(date, today) + "_" + LastSegment(model) + MaxExpansionsText(maxExpansions);
    assert (kwargs + [more])[..|kwargs|] == kwargs;
    assert KwargsText(kwargs + [more]) == KwargsText(kwargs) + KwargText(more);
    assert (head + KwargsText(kwargs)) + KwargText(more) == head + (KwargsText(kwargs) + KwargText(more));
  }

  lemma KwargsTextStep(kwargs: seq<(string, string)>, i: nat)
    requires i < |kwargs|
    ensures KwargsText(kwargs[..i + 1]) == KwargsText(kwargs[..i]) + KwargText(kwargs[i])
  {
    assert kwargs[..i + 1][..i] == kwargs[..i];
  }

  /** `create_evaluation_name`: the date, the model's last segment, the expansion limit, then the keyword arguments. */
  method CreateEvaluationName(model: string, date: string, today: string, maxExpansions: Option<int>,
                              kwargs: seq<(string, string)>) returns (modelName: string)
    ensures modelName == EvaluationName(model, date, today, maxExpansions, kwargs)
  {
    var dateStr := if date != [] then date else today;
    modelName := LastSegment(model);
    modelName := dateStr + "_" + modelName;
    if maxExpansions.Some? && maxExpansions.value != 0 {
      modelName := modelName + "_max_exp" + IntText(maxExpansions.value);
    }
    modelName := AppendKwargs(modelName, kwargs);
  }

  /** The loop over the keyword arguments: extends the name once per argument, in order. */
  method AppendKwargs(head: string, kwargs: seq<(string, string)>) returns (modelName: string)
    ensures modelName == head + KwargsText(kwargs)
  {
    modelName := head;
    assert kwargs[..0] == [] && head + [] == head;
    for i := 0 to |kwargs|
      invariant modelName == head + KwargsText(kwargs[..i])
    {
      var key := kwargs[i].0;
      var value := kwargs[i].1;
      KwargsTextStep(kwargs, i);
      assert (head + KwargsText(kwargs[..i])) + KwargText(kwargs[i]) == head + (KwargsText(kwargs[..i]) + KwargText(kwargs[i]));
      modelName := modelName + "_" + key + "_" + value;
    }
    assert kwargs[..|kwargs|] == kwargs;
  }
}
