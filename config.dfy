/**
 * Per-field rule configuration and its validation against the vocabulary.
 * Validation collects every violation; a configuration is accepted exactly
 * when there are none.
 */
module Config {
  import opened Options
  import opened Vocabulary

  /** One derive rule; `overwrite` and `blankIfNoMatch` may be absent from the caller's dict. */
  datatype DeriveRule = DeriveRule(
    kind: string,
    fieldSet: seq<string>,
    options: seq<string>,
    overwrite: Option<bool>,
    blankIfNoMatch: Option<bool>)

  /** The rules of one field: lookup tokens in declared order and derive rules in declared order. */
  datatype FieldConfig = FieldConfig(lookup: seq<string>, derive: seq<DeriveRule>)

  datatype ConfigError =
    | BadLookup(field: string, token: string)
    | BadDeriveType(field: string, rule: nat, kind: string)
    | BadDeriveOption(field: string, rule: nat, option: string)
    | BadHookPosition(position: string)

  predicate ValidRule(r: DeriveRule, deriveOptions: set<string>) {
    r.kind in DeriveTypes && forall o :: o in r.options ==> o in deriveOptions
  }

  predicate ValidFieldConfig(c: FieldConfig, deriveOptions: set<string>) {
    (forall t :: t in c.lookup ==> t in LookupTypes) &&
    (forall i :: 0 <= i < |c.derive| ==> ValidRule(c.derive[i], deriveOptions))
  }

  /** Reference definition: every field's tokens, types and options lie in the vocabulary. */
  predicate ValidFields(fields: map<string, FieldConfig>, deriveOptions: set<string>) {
    forall f :: f in fields ==> ValidFieldConfig(fields[f], deriveOptions)
  }

  /** Reference definition: every registration key is a hook position. */
  predicate ValidHooks<U>(udfs: map<string, U>) {
    forall p :: p in udfs ==> p in HookPositions
  }

  function LookupViolations(fields: map<string, FieldConfig>): set<ConfigError> {
    set f, t | f in fields && t in fields[f].lookup && t !in LookupTypes :: BadLookup(f, t)
  }

  function DeriveTypeViolations(fields: map<string, FieldConfig>): set<ConfigError> {
    set f, i | f in fields && 0 <= i < |fields[f].derive| && fields[f].derive[i].kind !in DeriveTypes
      :: BadDeriveType(f, i, fields[f].derive[i].kind)
  }

  function OptionViolations(fields: map<string, FieldConfig>, deriveOptions: set<string>): set<ConfigError> {
    set f, i, o | f in fields && 0 <= i < |fields[f].derive| && o in fields[f].derive[i].options
                  && o !in deriveOptions
      :: BadDeriveOption(f, i, o)
  }

  function HookViolations<U>(udfs: map<string, U>): set<ConfigError> {
    set p | p in udfs && p !in HookPositions :: BadHookPosition(p)
  }

  /** Every violation of a field map and a hook map, all reported together. */
  function Violations<U>(fields: map<string, FieldConfig>, udfs: map<string, U>,
                         deriveOptions: set<string>): set<ConfigError> {
    LookupViolations(fields) + DeriveTypeViolations(fields)
    + OptionViolations(fields, deriveOptions) + HookViolations(udfs)
  }

  /** Each reported violation names a real offending token. */
  lemma ViolationsAreReal<U>(fields: map<string, FieldConfig>, udfs: map<string, U>,
                             deriveOptions: set<string>, e: ConfigError)
    requires e in Violations(fields, udfs, deriveOptions)
    ensures e.BadLookup? ==> e.field in fields && e.token in fields[e.field].lookup && e.token !in LookupTypes
    ensures e.BadDeriveType? ==> e.field in fields && e.rule < |fields[e.field].derive|
                                 && fields[e.field].derive[e.rule].kind == e.kind && e.kind !in DeriveTypes
    ensures e.BadDeriveOption? ==> e.field in fields && e.rule < |fields[e.field].derive|
                                   && e.option in fields[e.field].derive[e.rule].options
                                   && e.option !in deriveOptions
    ensures e.BadHookPosition? ==> e.position in udfs && e.position !in HookPositions
  {
  }

  /** Validation accepts exactly the configurations the reference predicates call valid. */
  lemma NoViolationsIffValid<U>(fields: map<string, FieldConfig>, udfs: map<string, U>,
                                deriveOptions: set<string>)
    ensures Violations(fields, udfs, deriveOptions) == {}
        <==> ValidFields(fields, deriveOptions) && ValidHooks(udfs)
  {
    if !ValidFields(fields, deriveOptions) {
      var f :| f in fields && !ValidFieldConfig(fields[f], deriveOptions);
      var c := fields[f];
      if t :| t in c.lookup && t !in LookupTypes {
        assert BadLookup(f, t) in LookupViolations(fields);
      } else {
        var i :| 0 <= i < |c.derive| && !ValidRule(c.derive[i], deriveOptions);
        if c.derive[i].kind !in DeriveTypes {
          assert BadDeriveType(f, i, c.derive[i].kind) in DeriveTypeViolations(fields);
        } else {
          var o :| o in c.derive[i].options && o !in deriveOptions;
          assert BadDeriveOption(f, i, o) in OptionViolations(fields, deriveOptions);
        }
      }
    } else if !ValidHooks(udfs) {
      var p :| p in udfs && p !in HookPositions;
      assert BadHookPosition(p) in HookViolations(udfs);
    }
  }
}
