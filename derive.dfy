/**
 * The derive pass: for each configured field, in the record's key order, the
 * field's derive rules are tried in declared order and the first one whose
 * result differs from the field's value wins.  `Pass` is the specification
 * of `Records.Record.DeriveDataLookupAll`.
 */
module Derive {
  import opened Options
  import opened Config
  import opened Cleaning

  /** A rule is attempted only when every name in its field set is a key of the record. */
  predicate Gated(fieldSet: seq<string>, data: Rec) {
    forall k :: k in fieldSet ==> k in data
  }

  /** The dependency inputs of a gated rule: each name of the field set with its current value. */
  function Input(fieldSet: seq<string>, data: Rec): map<string, string>
    requires Gated(fieldSet, data)
  {
    map k | k in fieldSet :: data[k]
  }

  /** The rule types that reach a service. */
  const DispatchedTypes: set<string> := {"deriveValue", "copyValue", "deriveRegex"}

  /** The keys a rule's service call reads are present. */
  predicate WellFormed(r: DeriveRule) {
    ((r.kind == "deriveValue" || r.kind == "deriveRegex") ==> r.overwrite.Some? && r.blankIfNoMatch.Some?)
    && (r.kind == "copyValue" ==> r.overwrite.Some?)
  }

  predicate RulesWellFormed(config: map<string, FieldConfig>) {
    forall f :: f in config ==> forall r :: r in config[f].derive ==> WellFormed(r)
  }

  /**
   * Attempting one rule for `field` whose value before the rules was
   * `fieldVal`.  A rule that is not gated, or whose type reaches no service,
   * calls nothing and yields `fieldVal` with the history unchanged.
   */
  function Attempt<H>(rule: DeriveRule, data: Rec, field: string, fieldVal: string,
                      svc: Services<H>, hist: H): (r: (string, H))
    requires WellFormed(rule)
    ensures !Gated(rule.fieldSet, data) || rule.kind !in DispatchedTypes ==> r == (fieldVal, hist)
  {
    if !Gated(rule.fieldSet, data) then (fieldVal, hist)
    else
      var input := Input(rule.fieldSet, data);
      if rule.kind == "deriveValue" then
        svc.deriveLookup(field, input, rule.overwrite.value, fieldVal, hist, rule.blankIfNoMatch.value)
      else if rule.kind == "copyValue" then
        svc.deriveCopy(field, input, rule.overwrite.value, fieldVal, hist)
      else if rule.kind == "deriveRegex" then
        svc.deriveRegex(field, input, rule.overwrite.value, fieldVal, hist, rule.blankIfNoMatch.value)
      else
        (fieldVal, hist)
  }

  /** The rule loop of one field: the first changed value, if any, and the history. */
  function FirstChange<H>(rules: seq<DeriveRule>, data: Rec, field: string, fieldVal: string,
                          svc: Services<H>, hist: H): (r: (Option<string>, H))
    requires forall rule :: rule in rules ==> WellFormed(rule)
    ensures r.0.Some? ==> r.0.value != fieldVal
    ensures (forall rule :: rule in rules ==> !Gated(rule.fieldSet, data) || rule.kind !in DispatchedTypes)
            ==> r == (None, hist)
    decreases |rules|
  {
    if rules == [] then (None, hist)
    else
      var (v, h) := Attempt(rules[0], data, field, fieldVal, svc, hist);
      if v != fieldVal then (Some(v), h)
      else FirstChange(rules[1..], data, field, fieldVal, svc, h)
  }

  /** One iteration of the outer loop, for `field`. */
  function Step<H>(config: map<string, FieldConfig>, svc: Services<H>, data: Rec, hist: H,
                   field: string): (r: (Rec, H))
    requires field in data && RulesWellFormed(config)
    ensures r.0.Keys == data.Keys
    ensures forall k :: k in data && k != field ==> r.0[k] == data[k]
    ensures field !in config ==> r == (data, hist)
    ensures r.0 == data || r.0[field] != data[field]
  {
    if field !in config then (data, hist)
    else
      var (c, h) := FirstChange(config[field].derive, data, field, data[field], svc, hist);
      match c
      case Some(v) => (data[field := v], h)
      case None => (data, h)
  }

  /** The whole pass over `keys`, threading the record and the history. */
  function Pass<H>(config: map<string, FieldConfig>, svc: Services<H>, data: Rec, hist: H,
                   keys: seq<string>): (r: (Rec, H))
    requires forall k :: k in keys ==> k in data
    requires RulesWellFormed(config)
    ensures r.0.Keys == data.Keys
    decreases |keys|
  {
    if keys == [] then (data, hist)
    else
      var s := Step(config, svc, data, hist, keys[0]);
      Pass(config, svc, s.0, s.1, keys[1..])
  }

  /**
   * Short circuit: once a rule has changed the value, the rules after it are
   * never attempted, so they cannot affect the outcome or the history.
   */
  lemma {:induction false} FirstChangeStops<H>(pre: seq<DeriveRule>, rest: seq<DeriveRule>, data: Rec,
                                               field: string, fieldVal: string, svc: Services<H>, hist: H)
    requires forall rule :: rule in pre + rest ==> WellFormed(rule)
    requires FirstChange(pre, data, field, fieldVal, svc, hist).0.Some?
    ensures FirstChange(pre + rest, data, field, fieldVal, svc, hist)
            == FirstChange(pre, data, field, fieldVal, svc, hist)
  {
    assert (pre + rest)[0] == pre[0] && (pre + rest)[1..] == pre[1..] + rest;
    var (v, h) := Attempt(pre[0], data, field, fieldVal, svc, hist);
    if v == fieldVal {
      FirstChangeStops(pre[1..], rest, data, field, fieldVal, svc, h);
    }
  }

  /**
   * A rule that leaves the value unchanged does not stop the loop: the next
   * rules are tried with the history it returned.
   */
  lemma {:induction false} FirstChangeContinues<H>(pre: seq<DeriveRule>, rest: seq<DeriveRule>, data: Rec,
                                                   field: string, fieldVal: string, svc: Services<H>, hist: H)
    requires forall rule :: rule in pre + rest ==> WellFormed(rule)
    requires FirstChange(pre, data, field, fieldVal, svc, hist).0.None?
    ensures var mid := FirstChange(pre, data, field, fieldVal, svc, hist);
            FirstChange(pre + rest, data, field, fieldVal, svc, hist)
            == FirstChange(rest, data, field, fieldVal, svc, mid.1)
  {
    if pre == [] {
      assert pre + rest == rest;
    } else {
      assert (pre + rest)[0] == pre[0] && (pre + rest)[1..] == pre[1..] + rest;
      var (v, h) := Attempt(pre[0], data, field, fieldVal, svc, hist);
      FirstChangeContinues(pre[1..], rest, data, field, fieldVal, svc, h);
    }
  }

  /**
   * The winner is the first rule that changes the value: every rule before it
   * left the value as it was, and it was attempted with the history those
   * rules returned.  Its result is the value and history of the loop.
   */
  lemma {:induction false} FirstChangeWinner<H>(rules: seq<DeriveRule>, data: Rec, field: string,
                                                fieldVal: string, svc: Services<H>, hist: H)
    requires forall rule :: rule in rules ==> WellFormed(rule)
    requires FirstChange(rules, data, field, fieldVal, svc, hist).0.Some?
    ensures exists i :: 0 <= i < |rules| &&
              (forall rule :: rule in rules[..i] ==> WellFormed(rule)) &&
              FirstChange(rules[..i], data, field, fieldVal, svc, hist).0.None? &&
              Attempt(rules[i], data, field, fieldVal, svc,
                      FirstChange(rules[..i], data, field, fieldVal, svc, hist).1)
              == (FirstChange(rules, data, field, fieldVal, svc, hist).0.value,
                  FirstChange(rules, data, field, fieldVal, svc, hist).1)
  {
    var (v, h) := Attempt(rules[0], data, field, fieldVal, svc, hist);
    if v != fieldVal {
      assert rules[..0] == [];
      assert FirstChange(rules[..0], data, field, fieldVal, svc, hist) == (None, hist);
    } else {
      var tail := rules[1..];
      FirstChangeWinner(tail, data, field, fieldVal, svc, h);
      var i :| 0 <= i < |tail| &&
               (forall rule :: rule in tail[..i] ==> WellFormed(rule)) &&
               FirstChange(tail[..i], data, field, fieldVal, svc, h).0.None? &&
               Attempt(tail[i], data, field, fieldVal, svc, FirstChange(tail[..i], data, field, fieldVal, svc, h).1)
               == (FirstChange(tail, data, field, fieldVal, svc, h).0.value,
                   FirstChange(tail, data, field, fieldVal, svc, h).1);
      var pre := rules[..i + 1];
      assert pre[0] == rules[0] && pre[1..] == tail[..i];
      assert FirstChange(pre, data, field, fieldVal, svc, hist)
             == FirstChange(tail[..i], data, field, fieldVal, svc, h);
      assert tail[i] == rules[i + 1];
    }
  }

  /** A field not in the key order is never written. */
  lemma {:induction false} PassFrame<H>(config: map<string, FieldConfig>, svc: Services<H>, data: Rec,
                                        hist: H, keys: seq<string>, f: string)
    requires forall k :: k in keys ==> k in data
    requires RulesWellFormed(config)
    requires f in data && f !in keys
    ensures Pass(config, svc, data, hist, keys).0[f] == data[f]
  {
    if keys != [] {
      var s := Step(config, svc, data, hist, keys[0]);
      PassFrame(config, svc, s.0, s.1, keys[1..], f);
    }
  }

  /** A field without a configuration entry comes back unchanged. */
  lemma {:induction false} PassUnconfigured<H>(config: map<string, FieldConfig>, svc: Services<H>,
                                               data: Rec, hist: H, keys: seq<string>, f: string)
    requires forall k :: k in keys ==> k in data
    requires RulesWellFormed(config)
    requires f in data && f !in config
    ensures Pass(config, svc, data, hist, keys).0[f] == data[f]
  {
    if keys != [] {
      var s := Step(config, svc, data, hist, keys[0]);
      PassUnconfigured(config, svc, s.0, s.1, keys[1..], f);
    }
  }

  /** Running the pass over `a + b` is running it over `a`, then over `b`. */
  lemma {:induction false} PassSplit<H>(config: map<string, FieldConfig>, svc: Services<H>, data: Rec,
                                        hist: H, a: seq<string>, b: seq<string>)
    requires forall k :: k in a + b ==> k in data
    requires RulesWellFormed(config)
    ensures var mid := Pass(config, svc, data, hist, a);
            Pass(config, svc, data, hist, a + b) == Pass(config, svc, mid.0, mid.1, b)
  {
    if a != [] {
      var s := Step(config, svc, data, hist, a[0]);
      assert (a + b)[0] == a[0] && (a + b)[1..] == a[1..] + b;
      PassSplit(config, svc, s.0, s.1, a[1..], b);
    } else {
      assert a + b == b;
    }
  }

  /**
   * The configured field at position `k` ends up with the first changed value
   * of its rules, or keeps its value.  The rules see the record as left by
   * the fields before it, so a write to an earlier field is visible to a later
   * field's dependency inputs, and each rule is given the field's original value.
   */
  lemma PassField<H>(config: map<string, FieldConfig>, svc: Services<H>, data: Rec, hist: H,
                     keys: seq<string>, k: nat)
    requires forall key :: key in keys ==> key in data
    requires RulesWellFormed(config)
    requires Distinct(keys) && k < |keys| && keys[k] in config
    ensures var f := keys[k];
            var before := Pass(config, svc, data, hist, keys[..k]);
            var c := FirstChange(config[f].derive, before.0, f, data[f], svc, before.1).0;
            Pass(config, svc, data, hist, keys).0[f] == (if c.Some? then c.value else data[f])
  {
    var f := keys[k];
    assert keys == keys[..k] + ([f] + keys[k + 1..]);
    PassSplit(config, svc, data, hist, keys[..k], [f] + keys[k + 1..]);
    var before := Pass(config, svc, data, hist, keys[..k]);
    assert f !in keys[..k];
    PassFrame(config, svc, data, hist, keys[..k], f);
    var s := Step(config, svc, before.0, before.1, f);
    assert ([f] + keys[k + 1..])[1..] == keys[k + 1..];
    assert f !in keys[k + 1..];
    PassFrame(config, svc, s.0, s.1, keys[k + 1..], f);
  }

  /** No field has a rule that reaches a service on a record with these keys. */
  predicate NoRuleFires(config: map<string, FieldConfig>, data: Rec, keys: seq<string>) {
    forall k :: k in keys && k in config ==>
      forall rule :: rule in config[k].derive ==> !Gated(rule.fieldSet, data) || rule.kind !in DispatchedTypes
  }

  /** When no rule reaches a service, record and history come back as given. */
  lemma {:induction false} PassNoCall<H>(config: map<string, FieldConfig>, svc: Services<H>, data: Rec,
                                         hist: H, keys: seq<string>)
    requires forall k :: k in keys ==> k in data
    requires RulesWellFormed(config)
    requires NoRuleFires(config, data, keys)
    ensures Pass(config, svc, data, hist, keys) == (data, hist)
  {
    if keys != [] {
      PassNoCall(config, svc, data, hist, keys[1..]);
    }
  }
}
