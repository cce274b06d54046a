/**
 * The engine's configuration object: a name, a store handle, a field-rule
 * map and a map of user-defined functions by hook position, all read-only
 * once constructed.  Construction validates both maps.  `deriveOptions`
 * stands for the vocabulary of derive options, whose members are not
 * recoverable; only its use as a closed set matters here.
 */
module Dwm {
  import opened Options
  import opened Config

  class Dwm<M, U> {
    const name: string
    const mongo: M
    const fields: map<string, FieldConfig>
    const udfs: map<string, U>

    /** Construction from a configuration that validation accepts; `fields` and `udfs` default to empty. */
    constructor (deriveOptions: set<string>, name: string, mongo: M,
                 fields: map<string, FieldConfig> := map[], udfs: map<string, U> := map[])
      requires ValidFields(fields, deriveOptions) && ValidHooks(udfs)
      ensures this.name == name && this.mongo == mongo
      ensures this.fields == fields && this.udfs == udfs
    {
      this.name := name;
      this.mongo := mongo;
      this.fields := fields;
      this.udfs := udfs;
    }

    /**
     * Construction as the caller sees it: either an object holding exactly
     * the arguments, or failure with every violation and no object.
     */
    static method Create(deriveOptions: set<string>, name: string, mongo: M,
                         fields: map<string, FieldConfig>, udfs: map<string, U>)
      returns (r: Result<Dwm<M, U>, set<ConfigError>>)
      ensures r.Success? <==> ValidFields(fields, deriveOptions) && ValidHooks(udfs)
      ensures r.Failure? ==> r.error == Violations(fields, udfs, deriveOptions) && r.error != {}
      ensures r.Success? ==> r.value.name == name && r.value.mongo == mongo
                             && r.value.fields == fields && r.value.udfs == udfs
    {
      NoViolationsIffValid(fields, udfs, deriveOptions);
      var errors := Violations(fields, udfs, deriveOptions);
      if errors != {} {
        return Failure(errors);
      }
      var dwm := new Dwm(deriveOptions, name, mongo, fields, udfs);
      return Success(dwm);
    }
  }
}
