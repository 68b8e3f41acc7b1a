/** Register readings, of `internal/registers/reader.go`: how a raw value becomes a validated sample,
    and when two samples count as the same. */
module Samples {
  import opened Basics
  import opened Values

  datatype ReadRegister = ReadRegister(name: string, command: string, topic: string, divisor: int, kind: Kind,
                                       minValue: int, maxValue: int, confirmStep: real)

  /** One validated reading: its value in tenths, formatted, and as the unit sent it. */
  datatype Sample = Sample(tenths: int, text: string, raw: string)

  function EffectiveDivisor(reg: ReadRegister): (d: int)
    ensures d >= 1 && (d > 1 <==> reg.divisor > 1) && (d > 1 ==> d == reg.divisor)
  {
    if reg.divisor > 1 then reg.divisor else 1
  }

  /** `processValue`. Text that is no whole number, which no transaction returns, is kept. */
  function ProcessValue(raw: string, reg: ReadRegister): string {
    match ParseInteger(raw)
    case Some(n) => FormatByType(n, EffectiveDivisor(reg), reg.kind)
    case None => raw
  }

  predicate InRange(tenths: int, reg: ReadRegister) { 10 * reg.minValue <= tenths <= 10 * reg.maxValue }

  /** `toSample`: an unreadable or out-of-range reading is no sample. */
  function ToSample(raw: string, reg: ReadRegister): Option<Sample> {
    if ParseInteger(raw).None? then None
    else
      var text := ProcessValue(raw, reg);
      match ParseText(text)
      case Some(t) => if InRange(t, reg) then Some(Sample(t, text, raw)) else None
      case None => None
  }

  /** A sample is the unit's number over the divisor, rounded to what is shown, and its text
      determines its value; and every number within the range makes one. */
  lemma SampleIsRounded(raw: string, reg: ReadRegister)
    ensures ToSample(raw, reg).Some? <==>
      ParseInteger(raw).Some? && 10 * reg.minValue <= Tenths(ParseInteger(raw).value, EffectiveDivisor(reg), reg.kind) <= 10 * reg.maxValue
    ensures match ToSample(raw, reg)
      case None => true
      case Some(s) =>
        && s.raw == raw && ParseInteger(raw).Some? && InRange(s.tenths, reg)
        && s.tenths == Tenths(ParseInteger(raw).value, EffectiveDivisor(reg), reg.kind)
        && s.text == Render(s.tenths, reg.kind)
  {
    if ParseInteger(raw).Some? {
      var n, d := ParseInteger(raw).value, EffectiveDivisor(reg);
      RoundedIsShown(n, d, reg.kind);
      FormatThenParse(Tenths(n, d, reg.kind), reg.kind);
    }
  }

  lemma SameTextSameTenths(raw: string, raw': string, reg: ReadRegister)
    ensures ToSample(raw, reg).Some? && ToSample(raw', reg).Some? ==>
      (ToSample(raw, reg).value.text == ToSample(raw', reg).value.text <==> ToSample(raw, reg).value.tenths == ToSample(raw', reg).value.tenths)
  {
    SampleIsRounded(raw, reg);
    SampleIsRounded(raw', reg);
    hide ToSample, ParseInteger, Render, Tenths;
    if ToSample(raw, reg).Some? && ToSample(raw', reg).Some? {
      var a, b := ToSample(raw, reg).value.tenths, ToSample(raw', reg).value.tenths;
      RoundedIsShown(ParseInteger(raw).value, EffectiveDivisor(reg), reg.kind);
      RoundedIsShown(ParseInteger(raw').value, EffectiveDivisor(reg), reg.kind);
      SameTextSameValue(a, b, reg.kind);
    }
  }

  /** What the reading loop needs to know of a register: its name, how a raw value becomes a
      sample, and how far apart two values may be and still confirm each other. */
  datatype Rule = Rule(name: string, sample: string -> Option<Sample>, confirmStep: real)

  function RuleOf(reg: ReadRegister): Rule { Rule(reg.name, raw => ToSample(raw, reg), reg.confirmStep) }

  /** Every sample is in range. */
  ghost predicate Ranged(rule: Rule, reg: ReadRegister) {
    forall raw :: rule.sample(raw).Some? ==> InRange(rule.sample(raw).value.tenths, reg)
  }

  /** Two samples show the same text exactly when they have the same value. */
  ghost predicate Canonical(rule: Rule) {
    forall a, b :: rule.sample(a).Some? && rule.sample(b).Some? ==> SameMeaning(rule.sample(a).value, rule.sample(b).value)
  }

  ghost predicate SameMeaning(a: Sample, b: Sample) { a.text == b.text <==> a.tenths == b.tenths }

  /** What holds of every register's samples. */
  lemma RegisterRules(reg: ReadRegister)
    ensures Ranged(RuleOf(reg), reg) && Canonical(RuleOf(reg))
  {
    var rule := RuleOf(reg);
    forall raw | rule.sample(raw).Some? ensures InRange(rule.sample(raw).value.tenths, reg) {
      SampleIsRounded(raw, reg);
    }
    forall a, b | rule.sample(a).Some? && rule.sample(b).Some? ensures SameMeaning(rule.sample(a).value, rule.sample(b).value) {
      SameTextSameTenths(a, b, reg);
    }
  }

  predicate Near(a: int, b: int, rule: Rule) { Abs(a - b) as real <= 10.0 * rule.confirmStep }

  predicate IsTrusted(trusted: map<string, int>, rule: Rule, tenths: int) {
    rule.name in trusted && Near(tenths, trusted[rule.name], rule)
  }

  predicate Agree(a: Sample, b: Sample, rule: Rule) { a.text == b.text || Near(a.tenths, b.tenths, rule) }

  predicate AgreesWithAny(s: Sample, samples: seq<Sample>, rule: Rule) {
    exists i :: 0 <= i < |samples| && Agree(samples[i], s, rule)
  }
}
