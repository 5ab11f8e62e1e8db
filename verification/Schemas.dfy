/** The part of a schema that queries consult: the fields of each type. */
module Schemas {
  import opened Common

  /** The indexer's names, the query type, the known types, and type name to (field to type). */
  datatype Schema = Schema(
    namespace: string,
    identifier: string,
    query: string,
    types: set<string>,
    fields: map<string, map<string, string>>)
  {
    function FieldType(cond: string, name: string): Option<string> {
      if cond in fields then (if name in fields[cond] then Some(fields[cond][name]) else None)
      else
        var table := WithoutBang(cond);
        if table in fields && name in fields[table] then Some(fields[table][name]) else None
    }
  }

  /** normalize_field_type_name */
  function WithoutBang(s: string): string {
    if s == "" then "" else (if s[0] == '!' then "" else [s[0]]) + WithoutBang(s[1..])
  }
}
