/**
 * The settings schema: categories of typed fields with their defaults. The
 * settings manager creates and completes the settings dict from it.
 */
module ConfigSchema {
  import opened JsonValue

  datatype SettingType = Boolean | String | Integer

  datatype SettingField = SettingField(key: string, title: string, kind: SettingType, default: Json)

  datatype SettingCategory = SettingCategory(name: string, key: string, fields: seq<SettingField>)

  function BoolField(key: string, title: string, default: bool): SettingField {
    SettingField(key, title, Boolean, JBool(default))
  }

  /** The schema the application ships; tooltips are display text and are left out. */
  const Schema: seq<SettingCategory> := [
    SettingCategory("DeepSeek Behavior", "deepseek_behavior", [
      BoolField("enable_deepthink", "Enable DeepThink", false),
      BoolField("send_deepthink", "Send DeepThink", false),
      BoolField("enable_search", "Enable Search", false)]),
    SettingCategory("Test Category", "test_category", [
      BoolField("test_bool_1", "Test Boolean 1", true),
      BoolField("test_bool_2", "Test Boolean 2", false),
      BoolField("test_bool_3", "Test Boolean 3", true)]),
    SettingCategory("Another Category", "another_category", [
      BoolField("another_bool_1", "Another Boolean 1", true),
      BoolField("another_bool_2", "Another Boolean 2", false),
      BoolField("another_bool_3", "Another Boolean 3", true)]),
    SettingCategory("Very Long Section", "very_long_section", [
      BoolField("very_long_bool_1", "Very Long Boolean 1", true),
      BoolField("very_long_bool_2", "Very Long Boolean 2", false),
      BoolField("very_long_bool_3", "Very Long Boolean 3", true),
      BoolField("very_long_bool_4", "Very Long Boolean 4", false),
      BoolField("very_long_bool_5", "Very Long Boolean 5", true),
      BoolField("new_bool_1", "New Boolean 1", true),
      BoolField("new_bool_2", "New Boolean 2", false),
      BoolField("new_bool_3", "New Boolean 3", true)])
  ]

  /** No two categories share a key, and no two fields of a category do. */
  predicate WellKeyed(schema: seq<SettingCategory>) {
    && (forall i, j :: 0 <= i < j < |schema| ==> schema[i].key != schema[j].key)
    && (forall i :: 0 <= i < |schema| ==> FieldsKeyed(schema[i].fields))
  }

  predicate FieldsKeyed(fields: seq<SettingField>) {
    forall i, j :: 0 <= i < j < |fields| ==> fields[i].key != fields[j].key
  }
}
