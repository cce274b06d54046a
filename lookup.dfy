/**
 * The lookup pass: one lookup type applied to every field of a record, in
 * the record's key order.  `Pass` is the specification of
 * `Records.Record.LookupAll`; the lemmas below state what it does.
 */
module Lookup {
  import opened Vocabulary
  import opened Config
  import opened Cleaning

  /** A field is sent to a service when it is configured, non-blank and lists the lookup type. */
  predicate Eligible(config: map<string, FieldConfig>, lookupType: string, data: Rec, field: string)
    requires field in data
  {
    field in config && data[field] != "" && lookupType in config[field].lookup
  }

  /** The service call for one value: value lookups and regex lookups go to different services. */
  function Call<H>(svc: Services<H>, lookupType: string, value: string, field: string, hist: H): (string, H)
    requires lookupType in ServicedLookupTypes
  {
    if lookupType in ValueLookupTypes then svc.dataLookup(value, lookupType, field, hist)
    else svc.regexLookup(value, lookupType, field, hist)
  }

  /** One iteration of the loop, for `field`. */
  function Step<H>(config: map<string, FieldConfig>, lookupType: string, svc: Services<H>,
                   data: Rec, hist: H, field: string): (r: (Rec, H))
    requires field in data && lookupType in ServicedLookupTypes
    ensures r.0.Keys == data.Keys
    ensures forall k :: k in data && k != field ==> r.0[k] == data[k]
  {
    if Eligible(config, lookupType, data, field) then
      var (v, h) := Call(svc, lookupType, data[field], field, hist);
      (data[field := v], h)
    else
      (data, hist)
  }

  /** The whole pass over `keys`, threading the record and the history. */
  function Pass<H>(config: map<string, FieldConfig>, lookupType: string, svc: Services<H>,
                   data: Rec, hist: H, keys: seq<string>): (r: (Rec, H))
    requires forall k :: k in keys ==> k in data
    requires lookupType in ServicedLookupTypes
    ensures r.0.Keys == data.Keys
    decreases |keys|
  {
    if keys == [] then (data, hist)
    else
      var s := Step(config, lookupType, svc, data, hist, keys[0]);
      Pass(config, lookupType, svc, s.0, s.1, keys[1..])
  }

  /** A field not in the key order is never written. */
  lemma {:induction false} PassFrame<H>(config: map<string, FieldConfig>, lookupType: string,
                                        svc: Services<H>, data: Rec, hist: H, keys: seq<string>,
                                        f: string)
    requires forall k :: k in keys ==> k in data
    requires lookupType in ServicedLookupTypes
    requires f in data && f !in keys
    ensures Pass(config, lookupType, svc, data, hist, keys).0[f] == data[f]
  {
    if keys != [] {
      var s := Step(config, lookupType, svc, data, hist, keys[0]);
      PassFrame(config, lookupType, svc, s.0, s.1, keys[1..], f);
    }
  }

  /**
   * A blank field, a field missing from the configuration, and a field whose
   * `lookup` list lacks the lookup type all come back unchanged.
   */
  lemma {:induction false} PassUntouched<H>(config: map<string, FieldConfig>, lookupType: string,
                                            svc: Services<H>, data: Rec, hist: H, keys: seq<string>,
                                            f: string)
    requires forall k :: k in keys ==> k in data
    requires lookupType in ServicedLookupTypes
    requires f in data
    requires f !in config || data[f] == "" || lookupType !in config[f].lookup
    ensures Pass(config, lookupType, svc, data, hist, keys).0[f] == data[f]
  {
    if keys != [] {
      var s := Step(config, lookupType, svc, data, hist, keys[0]);
      assert s.0[f] == data[f];
      PassUntouched(config, lookupType, svc, s.0, s.1, keys[1..], f);
    }
  }

  /** Running the pass over `a + b` is running it over `a`, then over `b`. */
  lemma {:induction false} PassSplit<H>(config: map<string, FieldConfig>, lookupType: string,
                                        svc: Services<H>, data: Rec, hist: H,
                                        a: seq<string>, b: seq<string>)
    requires forall k :: k in a + b ==> k in data
    requires lookupType in ServicedLookupTypes
    ensures var mid := Pass(config, lookupType, svc, data, hist, a);
            Pass(config, lookupType, svc, data, hist, a + b)
            == Pass(config, lookupType, svc, mid.0, mid.1, b)
  {
    if a != [] {
      var s := Step(config, lookupType, svc, data, hist, a[0]);
      assert (a + b)[0] == a[0] && (a + b)[1..] == a[1..] + b;
      PassSplit(config, lookupType, svc, s.0, s.1, a[1..], b);
    } else {
      assert a + b == b;
    }
  }

  /**
   * An eligible field at position `k` is replaced by the service's answer for
   * its original value, given the history accumulated by the fields before it.
   */
  lemma PassTouched<H>(config: map<string, FieldConfig>, lookupType: string, svc: Services<H>,
                       data: Rec, hist: H, keys: seq<string>, k: nat)
    requires forall key :: key in keys ==> key in data
    requires lookupType in ServicedLookupTypes
    requires Distinct(keys) && k < |keys|
    requires Eligible(config, lookupType, data, keys[k])
    ensures var f := keys[k];
            var before := Pass(config, lookupType, svc, data, hist, keys[..k]);
            Pass(config, lookupType, svc, data, hist, keys).0[f]
            == Call(svc, lookupType, data[f], f, before.1).0
  {
    var f := keys[k];
    assert keys == keys[..k] + ([f] + keys[k + 1..]);
    PassSplit(config, lookupType, svc, data, hist, keys[..k], [f] + keys[k + 1..]);
    var before := Pass(config, lookupType, svc, data, hist, keys[..k]);
    assert f !in keys[..k];
    PassFrame(config, lookupType, svc, data, hist, keys[..k], f);
    var s := Step(config, lookupType, svc, before.0, before.1, f);
    assert ([f] + keys[k + 1..])[1..] == keys[k + 1..];
    assert f !in keys[k + 1..];
    PassFrame(config, lookupType, svc, s.0, s.1, keys[k + 1..], f);
  }

  /** When no field is eligible, no service is called: record and history come back as given. */
  lemma {:induction false} PassNoCall<H>(config: map<string, FieldConfig>, lookupType: string,
                                         svc: Services<H>, data: Rec, hist: H, keys: seq<string>)
    requires forall k :: k in keys ==> k in data
    requires lookupType in ServicedLookupTypes
    requires forall k :: k in keys ==> !Eligible(config, lookupType, data, k)
    ensures Pass(config, lookupType, svc, data, hist, keys) == (data, hist)
  {
    if keys != [] {
      PassNoCall(config, lookupType, svc, data, hist, keys[1..]);
    }
  }

  /**
   * The history returned is the one produced by the service call for the last
   * eligible field.
   */
  lemma PassHistoryLast<H>(config: map<string, FieldConfig>, lookupType: string, svc: Services<H>,
                           data: Rec, hist: H, keys: seq<string>, k: nat)
    requires forall key :: key in keys ==> key in data
    requires lookupType in ServicedLookupTypes
    requires Distinct(keys) && k < |keys|
    requires Eligible(config, lookupType, data, keys[k])
    requires forall j :: k < j < |keys| ==> !Eligible(config, lookupType, data, keys[j])
    ensures var f := keys[k];
            var before := Pass(config, lookupType, svc, data, hist, keys[..k]);
            Pass(config, lookupType, svc, data, hist, keys).1
            == Call(svc, lookupType, data[f], f, before.1).1
  {
    var f := keys[k];
    assert keys == keys[..k] + ([f] + keys[k + 1..]);
    PassSplit(config, lookupType, svc, data, hist, keys[..k], [f] + keys[k + 1..]);
    var before := Pass(config, lookupType, svc, data, hist, keys[..k]);
    assert f !in keys[..k];
    PassFrame(config, lookupType, svc, data, hist, keys[..k], f);
    var s := Step(config, lookupType, svc, before.0, before.1, f);
    assert ([f] + keys[k + 1..])[1..] == keys[k + 1..];
    forall key | key in keys[k + 1..]
      ensures !Eligible(config, lookupType, s.0, key)
    {
      var j :| k < j < |keys| && keys[j] == key;
      assert key !in keys[..k];
      PassFrame(config, lookupType, svc, data, hist, keys[..k], key);
    }
    PassNoCall(config, lookupType, svc, s.0, s.1, keys[k + 1..]);
  }

  /**
   * Idempotence: when the service reports "no change" for every eligible
   * field (same value, same history), the pass leaves record and history
   * unchanged.
   */
  lemma {:induction false} PassCanonical<H>(config: map<string, FieldConfig>, lookupType: string,
                                            svc: Services<H>, data: Rec, hist: H, keys: seq<string>)
    requires forall k :: k in keys ==> k in data
    requires lookupType in ServicedLookupTypes
    requires forall k :: k in keys && Eligible(config, lookupType, data, k)
                         ==> Call(svc, lookupType, data[k], k, hist) == (data[k], hist)
    ensures Pass(config, lookupType, svc, data, hist, keys) == (data, hist)
  {
    if keys != [] {
      var f := keys[0];
      if Eligible(config, lookupType, data, f) {
        assert data[f := data[f]] == data;
      }
      PassCanonical(config, lookupType, svc, data, hist, keys[1..]);
    }
  }
}
