/**
 * The fixed rule vocabulary of the cleaning engine: the lookup tokens a
 * field may list, the derive rule types, and the positions at which a
 * user-defined function may be registered.  Tokens stay strings, as in the
 * configuration the caller writes.
 */
module Vocabulary {

  /** Lookup tokens accepted in a field's `lookup` list. */
  const LookupTypes: set<string> :=
    {"genericLookup", "genericRegex", "fieldSpecificLookup", "fieldSpecificRegex",
     "normLookup", "normRegex", "normIncludes"}

  /** Lookup types that the lookup pass sends to the value service. */
  const ValueLookupTypes: set<string> := {"genericLookup", "fieldSpecificLookup", "normLookup"}

  /** Lookup types that the lookup pass sends to the regex service. */
  const RegexLookupTypes: set<string> := {"genericRegex", "fieldSpecificRegex", "normRegex"}

  /** The six lookup types the lookup pass can dispatch; `normIncludes` is not one of them. */
  const ServicedLookupTypes: set<string> := ValueLookupTypes + RegexLookupTypes

  /** Derive rule types accepted in a rule's `type`. */
  const DeriveTypes: set<string> := {"deriveValue", "copyValue", "deriveRegex", "deriveIncludes"}

  /** Positions at which a user-defined function may be registered. */
  const HookPositions: set<string> :=
    {"beforeGenericValLookup", "beforeGenericValRegex", "beforeFieldSpecificLookup",
     "beforeFieldSpecificRegex", "beforeNormLookup", "beforeNormRegex",
     "beforeNormIncludes", "beforeDerive", "afterAll"}
}
