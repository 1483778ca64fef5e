/** The metadata of the database client: models and composite types with their fields. */
module DataModel {
  import opened Common

  datatype Kind = Scalar | Enumeration | Object | Unsupported

  /** `related` is set for relation fields and clear for composite ones. */
  datatype Field = Field(kind: Kind, fieldType: string, isList: bool, related: bool)

  datatype Schema = Schema(models: map<string, map<string, Field>>, types: map<string, map<string, Field>>)

  function GetFieldMeta(schema: Schema, model: string, field: string): Option<Field> {
    if model in schema.models then
      if field in schema.models[model] then Some(schema.models[model][field]) else None
    else if model in schema.types && field in schema.types[model] then Some(schema.types[model][field])
    else None
  }

  predicate IsValidField(schema: Schema, model: string, field: string) {
    (model in schema.models && field in schema.models[model]) || (model in schema.types && field in schema.types[model])
  }
}
