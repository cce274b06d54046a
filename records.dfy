/**
 * A record being cleaned, updated in place by the two passes of the
 * repository's `wrappers` module.  `keys` is the order in which the
 * record's `keys()` are walked.
 */
module Records {
  import opened Options
  import opened Vocabulary
  import opened Config
  import opened Cleaning
  import Lookup
  import Derive

  /** The loop that collects a gated rule's dependency inputs. */
  method BuildDeriveInput(fieldSet: seq<string>, data: Rec) returns (deriveInput: map<string, string>)
    requires Derive.Gated(fieldSet, data)
    ensures deriveInput.Keys == set k | k in fieldSet
    ensures forall k :: k in deriveInput ==> k in data && deriveInput[k] == data[k]
  {
    deriveInput := map[];
    for n := 0 to |fieldSet|
      invariant deriveInput.Keys == set k | k in fieldSet[..n]
      invariant forall k :: k in deriveInput ==> k in data && deriveInput[k] == data[k]
    {
      assert fieldSet[..n + 1] == fieldSet[..n] + [fieldSet[n]];
      deriveInput := deriveInput[fieldSet[n] := data[fieldSet[n]]];
    }
    assert fieldSet[..|fieldSet|] == fieldSet;
  }

  /**
   * One derive rule: skipped unless gated, then dispatched on its type; a
   * type with no service leaves `fieldVal` and the history as they were.
   */
  method AttemptRule<H>(rule: DeriveRule, data: Rec, field: string, fieldVal: string,
                        svc: Services<H>, histObj: H) returns (fieldValNew: string, hist: H)
    requires Derive.WellFormed(rule)
    ensures (fieldValNew, hist) == Derive.Attempt(rule, data, field, fieldVal, svc, histObj)
  {
    fieldValNew, hist := fieldVal, histObj;
    if Derive.Gated(rule.fieldSet, data) {
      var deriveInput := BuildDeriveInput(rule.fieldSet, data);
      assert deriveInput == Derive.Input(rule.fieldSet, data);
      if rule.kind == "deriveValue" {
        var res := svc.deriveLookup(field, deriveInput, rule.overwrite.value, fieldVal, hist,
                                    rule.blankIfNoMatch.value);
        fieldValNew, hist := res.0, res.1;
      } else if rule.kind == "copyValue" {
        var res := svc.deriveCopy(field, deriveInput, rule.overwrite.value, fieldVal, hist);
        fieldValNew, hist := res.0, res.1;
      } else if rule.kind == "deriveRegex" {
        var res := svc.deriveRegex(field, deriveInput, rule.overwrite.value, fieldVal, hist,
                                   rule.blankIfNoMatch.value);
        fieldValNew, hist := res.0, res.1;
      }
    }
  }

  /**
   * The rule loop of one field: tries the rules in order and stops at the
   * first whose result differs from `fieldVal`; returns that result (or
   * `fieldVal` when no rule changes it) and the history.
   */
  method TryRules<H>(rules: seq<DeriveRule>, data: Rec, field: string, fieldVal: string,
                     svc: Services<H>, histObj: H) returns (fieldValNew: string, hist: H)
    requires forall rule :: rule in rules ==> Derive.WellFormed(rule)
    ensures var (c, h) := Derive.FirstChange(rules, data, field, fieldVal, svc, histObj);
            hist == h && fieldValNew == (if c.Some? then c.value else fieldVal)
  {
    fieldValNew, hist := fieldVal, histObj;
    var j := 0;
    while j < |rules|
      invariant 0 <= j <= |rules|
      invariant fieldValNew == fieldVal
      invariant Derive.FirstChange(rules[j..], data, field, fieldVal, svc, hist)
                == Derive.FirstChange(rules, data, field, fieldVal, svc, histObj)
    {
      var rule := rules[j];
      assert rule in rules && rules[j..][0] == rule && rules[j..][1..] == rules[j + 1..];
      fieldValNew, hist := AttemptRule(rule, data, field, fieldVal, svc, hist);
      if fieldValNew != fieldVal {
        break;
      }
      j := j + 1;
    }
  }

  class Record {
    var keys: seq<string>
    var data: Rec

    ghost predicate Valid()
      reads this
    {
      Distinct(keys) && (set k | k in keys) == data.Keys
    }

    constructor (keys: seq<string>, data: Rec)
      requires Distinct(keys) && (set k | k in keys) == data.Keys
      ensures Valid() && this.keys == keys && this.data == data
    {
      this.keys := keys;
      this.data := data;
    }

    /**
     * Applies one lookup type to every field, in key order; returns the
     * history.  The record's keys never change.
     */
    method LookupAll<H>(configFields: map<string, FieldConfig>, lookupType: string,
                        svc: Services<H>, histObj: H) returns (hist: H)
      requires Valid()
      requires lookupType in ServicedLookupTypes
      modifies this`data
      ensures Valid()
      ensures (data, hist) == Lookup.Pass(configFields, lookupType, svc, old(data), histObj, keys)
    {
      hist := histObj;
      for i := 0 to |keys|
        invariant data.Keys == old(data).Keys
        invariant Lookup.Pass(configFields, lookupType, svc, data, hist, keys[i..])
                  == Lookup.Pass(configFields, lookupType, svc, old(data), histObj, keys)
      {
        var field := keys[i];
        assert keys[i..][1..] == keys[i + 1..];
        if field in configFields && data[field] != "" {
          if lookupType in configFields[field].lookup {
            var fieldValNew: string;
            if lookupType in ValueLookupTypes {
              var res := svc.dataLookup(data[field], lookupType, field, hist);
              fieldValNew, hist := res.0, res.1;
            } else {
              var res := svc.regexLookup(data[field], lookupType, field, hist);
              fieldValNew, hist := res.0, res.1;
            }
            data := data[field := fieldValNew];
          }
        }
      }
    }

    /**
     * Applies the derive rules of every configured field, in key order; for
     * each field the first rule that changes its value is written and the
     * remaining rules are skipped.  Returns the history.
     */
    method DeriveDataLookupAll<H>(configFields: map<string, FieldConfig>, svc: Services<H>,
                                  histObj: H) returns (hist: H)
      requires Valid()
      requires Derive.RulesWellFormed(configFields)
      modifies this`data
      ensures Valid()
      ensures (data, hist) == Derive.Pass(configFields, svc, old(data), histObj, keys)
    {
      hist := histObj;
      for i := 0 to |keys|
        invariant data.Keys == old(data).Keys
        invariant Derive.Pass(configFields, svc, data, hist, keys[i..])
                  == Derive.Pass(configFields, svc, old(data), histObj, keys)
      {
        var field := keys[i];
        assert keys[i..][1..] == keys[i + 1..];
        ghost var data0, hist0 := data, hist;
        if field in configFields {
          var fieldVal := data[field];
          var fieldValNew;
          fieldValNew, hist := TryRules(configFields[field].derive, data, field, fieldVal, svc, hist);
          if fieldValNew != fieldVal {
            data := data[field := fieldValNew];
          }
        }
        assert (data, hist) == Derive.Step(configFields, svc, data0, hist0, field);
      }
    }
  }
}
