/**
 * The record type and the external cleaning services.  The services query
 * the reference store; their behaviour is not part of this model, so they
 * are arbitrary functions supplied by the caller, with the store handle
 * captured inside them.  The history is an opaque value `H` that every
 * service takes and returns.
 */
module Cleaning {

  /** A record: field name to value; the empty string means "no value". */
  type Rec = map<string, string>

  datatype Services<!H> = Services(
    /** DataLookup(fieldVal, lookupType, fieldName, hist) */
    dataLookup: (string, string, string, H) -> (string, H),
    /** RegexLookup(fieldVal, lookupType, fieldName, hist) */
    regexLookup: (string, string, string, H) -> (string, H),
    /** DeriveDataLookup(fieldName, deriveInput, overwrite, fieldVal, hist, blankIfNoMatch) */
    deriveLookup: (string, map<string, string>, bool, string, H, bool) -> (string, H),
    /** DeriveDataCopyValue(fieldName, deriveInput, overwrite, fieldVal, hist) */
    deriveCopy: (string, map<string, string>, bool, string, H) -> (string, H),
    /** DeriveDataRegex(fieldName, deriveInput, overwrite, fieldVal, hist, blankIfNoMatch) */
    deriveRegex: (string, map<string, string>, bool, string, H, bool) -> (string, H))

  /** The key order of a record lists each key once. */
  predicate Distinct(keys: seq<string>) {
    forall i, j :: 0 <= i < j < |keys| ==> keys[i] != keys[j]
  }
}
