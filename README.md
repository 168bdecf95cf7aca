# OIMS tool box: a verified model of its JSON and string logic

This project models the data-handling core of the Python scripts of the OIMS tool box. OIMS is an
open metadata schema. The scripts turn spreadsheets and other sources into OIMS JSON
documents and derive JSON Schemas from them. Six pieces are modelled, each in its own module:

- `ExcelToOims` (`excel_to_oims.dfy`): the spreadsheet converter of
  `convert_approach_ii_EXCEL_to_OIMS.py`.
  - `get_nested_dict` builds a one-path dict.
  - `excel_sheet_to_dict` folds the rows of a sheet into a nested dict, walking a cursor down
    the dotted parent path and creating `{}` on the way.
  - `remove_none_values` prunes `None`.
  - `excel_to_json` extracts and combines the header and the content.
- `SchemaInference` (`schema_base.dfy`): `infer_schema` and `generate_json_schema` of
  `json_schema_builder_base.py`. These derive a schema from a sample document. A small
  draft-07 validator for the keywords they emit states what the schema promises.
- `SchemaBuilder` (`schema_builder.dfy`): `generate_schema` and `default_schema` of
  `json_schema_builder.py`.
  - The metadata descriptors of one content object become property schemas and a required list.
  - These are written into a fixed default schema.
- `SnakeCase` (`snake_case.dfy`): `to_snake_case` of `OIMS_snake_case_converter.py`. Its two
  regular expressions are written as character scans.
- `KeyConversion` and `Consistency` (`key_conversion.dfy`, `consistency.dfy`):
  `standardize_oims_properties`, `convert_keys_recursive` and `check_consistency` of the same
  file. They rename every key of a document, record the renamings and report the keys that a
  conversion dictionary would rename.
- `TemplateConverter` (`fi_template.dfy`): the spreadsheet address helpers of
  `FI_convert_template_v_001.py`. These are `excel_column_to_index`, `get_range`,
  `dataframe_to_dict_without_nans`, the column filter and the `vars_in_rows` transform.
- `DataverseCleaner` (`dataverse.dfy`): `quote_properties` of `convert_dataverse_to_OIMS.py`.
  It puts double quotes around bare property names.

Shared modules:

- `Wrappers`: `Option` and `Result`.
- `JsonValues`: the JSON value type, Python exceptions as `PyError`, truthiness, `str()`, `dict.get`.
- `OrderedMaps`: a Python dict as an insertion-ordered sequence of pairs.
- `Text`: `split`, `join`, `strip`, `lower`, `replace`.

A JSON value is `Null | Bool | Int | Float | Str | Arr | Obj`.

- An object is a sequence of key/value pairs, so that dict insertion order survives.
- A float keeps only whether it is zero. That is all the scripts look at: its type, and its
  truthiness.
- Every Python exception the modelled code can raise is an `Err` of `Result`.

Loops that update variables or containers are methods. Each method is proved equal to a
function stating what the loop computes, and the lemmas are about those functions. The methods
are:

- the row loop of `excel_sheet_to_dict`;
- the search and descriptor loops of `generate_schema`;
- the list and dict loops of `convert_keys_recursive` and `check_consistency`;
- `excel_column_to_index` and the `vars_in_rows` loop.

Some behaviour of the code is easy to misread; the model keeps it as written:

- `excel_sheet_to_dict` (convert_approach_ii_EXCEL_to_OIMS.py:83-92) walks the whole dotted
  parent path before it assigns, and line 92 then takes the last path segment as the
  property key. A row with parent "a.b", no property and
  value x therefore gives `{"a": {"b": {"b": x}}}`.
- `remove_none_values` (convert_approach_ii_EXCEL_to_OIMS.py:111-116) drops a dict entry whose
  value cleans to `{}` and a list element that cleans to `[]`. It keeps a dict entry that
  cleans to `[]` and a list element that cleans to `{}`.
- Line 95 of the same file tests `property_key is None`, so with a property key the compound
  flag plays no part.
- A compound row whose nested key already holds a non-list fails at `.append` or `.extend`
  (lines 98-101) with `AttributeError`.
- `infer_schema` (json_schema_builder_base.py:47-62) tells an integer from a float by its
  Python type, so `1.0` gets `{"type": "number"}`.

## Model

| member | source | states |
|---|---|---|
| ExcelToOims.NestedDict | OIMS_tool_box/OIMSLibrary/python/convert_approach_ii_EXCEL_to_OIMS.py:53-65 | with a non-empty key path the result is a dict whose only key is the first path segment |
| ExcelToOims.NestedDictLookup | OIMS_tool_box/OIMSLibrary/python/convert_approach_ii_EXCEL_to_OIMS.py:53-65 | the value is found at the end of the key path, wrapped as `[value]` (or `[]` when falsy) only when compound; with no keys the result is that wrapped value itself |
| ExcelToOims.NestedDictDepth | OIMS_tool_box/OIMSLibrary/python/convert_approach_ii_EXCEL_to_OIMS.py:61-63 | every level above the value is a dict with exactly one key, the next path segment |
| ExcelToOims.ExcelSheetToDict | OIMS_tool_box/OIMSLibrary/python/convert_approach_ii_EXCEL_to_OIMS.py:68-108 | the row loop returns exactly the fold of the rows in order, or the first exception |
| ExcelToOims.SheetFieldsAbort | OIMS_tool_box/OIMSLibrary/python/convert_approach_ii_EXCEL_to_OIMS.py:70-106 | once a row raises, the whole sheet fails with that exception whatever rows follow |
| ExcelToOims.WalkReach | OIMS_tool_box/OIMSLibrary/python/convert_approach_ii_EXCEL_to_OIMS.py:83-89 | the walk raises the conflict ValueError exactly when a path key holds a non-dict; otherwise it succeeds exactly when the assignment in the reached dict does, and the updated dict is found under the path |
| ExcelToOims.WalkStep | OIMS_tool_box/OIMSLibrary/python/convert_approach_ii_EXCEL_to_OIMS.py:84-89 | a successful walk replaces the first key's dict (a fresh `{}` if missing) by the walk of the rest of the path |
| ExcelToOims.WalkFrame | OIMS_tool_box/OIMSLibrary/python/convert_approach_ii_EXCEL_to_OIMS.py:83-106 | every path that leaves the row's path reads the same before and after the row |
| ExcelToOims.WalkTopFrame | OIMS_tool_box/OIMSLibrary/python/convert_approach_ii_EXCEL_to_OIMS.py:83-89 | at the top level only the first path key can change, and a new key is added last |
| ExcelToOims.AssignProperty | OIMS_tool_box/OIMSLibrary/python/convert_approach_ii_EXCEL_to_OIMS.py:103-106 | with a property key the compound flag has no effect; the assignment raises exactly when a dict is already there, and otherwise stores the value under the key and changes no other key |
| ExcelToOims.AssignNothing | OIMS_tool_box/OIMSLibrary/python/convert_approach_ii_EXCEL_to_OIMS.py:94-106 | an empty property key, or a non-compound row without one, stores nothing |
| ExcelToOims.AssignCompound | OIMS_tool_box/OIMSLibrary/python/convert_approach_ii_EXCEL_to_OIMS.py:95-102 | a compound row without a property key extends a split value, or appends the value or `{}`, to the list under its nested key (starting from `[]`), changes no other key, and raises AttributeError when a non-list is there |
| ExcelToOims.PropertyKeyNone | OIMS_tool_box/OIMSLibrary/python/convert_approach_ii_EXCEL_to_OIMS.py:72-96 | a row has no property key exactly when its property and parent cells are both empty, so the nested key of line 96 is always "items" |
| ExcelToOims.RowValueLocal | OIMS_tool_box/OIMSLibrary/python/convert_approach_ii_EXCEL_to_OIMS.py:74-78 | a 'local' cell becomes the list of its '\|'-separated pieces, one more than there are separators, which join back to the cell |
| ExcelToOims.ScenarioNestedParent | OIMS_tool_box/OIMSLibrary/python/convert_approach_ii_EXCEL_to_OIMS.py:84-106 | parent "a.b", no property, value x gives `{a: {b: {b: x}}}` |
| ExcelToOims.ScenarioCompoundItems | OIMS_tool_box/OIMSLibrary/python/convert_approach_ii_EXCEL_to_OIMS.py:95-102 | two compound rows without parent or property give `{"items": [x, {}]}`, the empty cell appended as `{}` |
| ExcelToOims.PruneKeepsKind | OIMS_tool_box/OIMSLibrary/python/convert_approach_ii_EXCEL_to_OIMS.py:111-117 | the cleaner returns None exactly for None |
| ExcelToOims.PruneIsClean | OIMS_tool_box/OIMSLibrary/python/convert_approach_ii_EXCEL_to_OIMS.py:111-117 | the result has no None, no `{}` dict value and no `[]` list element at any depth |
| ExcelToOims.PruneOfClean | OIMS_tool_box/OIMSLibrary/python/convert_approach_ii_EXCEL_to_OIMS.py:111-117 | a value that is already clean is returned unchanged |
| ExcelToOims.PruneRemovesNulls | OIMS_tool_box/OIMSLibrary/python/convert_approach_ii_EXCEL_to_OIMS.py:111-117 | after cleaning no dict value and no list element is None, at any depth |
| ExcelToOims.PruneIdempotent | OIMS_tool_box/OIMSLibrary/python/convert_approach_ii_EXCEL_to_OIMS.py:111-117 | cleaning twice equals cleaning once |
| ExcelToOims.PruneSingleField | OIMS_tool_box/OIMSLibrary/python/convert_approach_ii_EXCEL_to_OIMS.py:112-113 | a dict entry survives exactly when its value is not None and does not clean to `{}` |
| ExcelToOims.PruneSingleItem | OIMS_tool_box/OIMSLibrary/python/convert_approach_ii_EXCEL_to_OIMS.py:114-115 | a list element survives exactly when it is not None and does not clean to `[]` |
| ExcelToOims.PruneEmptyContainers | OIMS_tool_box/OIMSLibrary/python/convert_approach_ii_EXCEL_to_OIMS.py:112-115 | the asymmetry: a dict drops `{}` values but keeps `[]`; a list drops `[]` elements but keeps `{}` |
| ExcelToOims.PruneScalar | OIMS_tool_box/OIMSLibrary/python/convert_approach_ii_EXCEL_to_OIMS.py:116-117 | scalars come back unchanged |
| ExcelToOims.SafeExtractClean | OIMS_tool_box/OIMSLibrary/python/convert_approach_ii_EXCEL_to_OIMS.py:135-136 | extracting from a cleaned dict gives a clean value that is not None |
| ExcelToOims.CombineShape | OIMS_tool_box/OIMSLibrary/python/convert_approach_ii_EXCEL_to_OIMS.py:143-148 | the header and the content are found under "OIMS"; a dict content is wrapped in a one-element list, anything else kept |
| ExcelToOims.ExcelToJsonNoNulls | OIMS_tool_box/OIMSLibrary/python/convert_approach_ii_EXCEL_to_OIMS.py:121-148 | the combined document holds no None anywhere and its content is never a bare dict |
| ExcelToOims.ExcelToJsonWithoutOims | OIMS_tool_box/OIMSLibrary/python/convert_approach_ii_EXCEL_to_OIMS.py:135-148 | without an "OIMS" key the whole cleaned sheets are used |
| SchemaInference.GenerateIsInferPlusDraft | OIMS_tool_box/OIMSLibrary/python/json_schema_builder_base.py:10-22 | succeeds exactly on a dict and is then the inferred object schema with the draft-07 "$schema" in front; on anything else `.items()` raises AttributeError |
| SchemaInference.InferHasType | OIMS_tool_box/OIMSLibrary/python/json_schema_builder_base.py:24-69 | every inferred schema is a dict whose first key is "type" |
| SchemaInference.InferObject | OIMS_tool_box/OIMSLibrary/python/json_schema_builder_base.py:25-35 | a dict gives type "object", "properties" holding exactly its keys each with the schema of its value, and "required" listing its keys in order |
| SchemaInference.InferArray | OIMS_tool_box/OIMSLibrary/python/json_schema_builder_base.py:36-46 | an empty list gives `{"type": "array"}` without "items"; otherwise "items" is the schema of the first element and later elements play no part |
| SchemaInference.InferScalars | OIMS_tool_box/OIMSLibrary/python/json_schema_builder_base.py:47-66 | int and bool give "integer", float "number", str "string", None "null" |
| SchemaInference.BooleanRejectedByOwnSchema | OIMS_tool_box/OIMSLibrary/python/json_schema_builder_base.py:47-62 | a boolean gets `{"type": "integer"}`, which the boolean does not satisfy under draft-07 |
| SchemaInference.DocumentWithBooleanRejected | OIMS_tool_box/OIMSLibrary/python/json_schema_builder_base.py:10-62 | any dict without repeated keys that has a boolean value under some key gets a schema, and does not conform to it: that key's property schema asks for an integer |
| SchemaInference.MixedDocumentRejected | OIMS_tool_box/OIMSLibrary/python/json_schema_builder_base.py:10-62 | the document `{"a": 1, "b": true}` does not conform to the schema generated from it |
| SchemaInference.FixedDiffersOnlyOnBooleans | OIMS_tool_box/OIMSLibrary/python/json_schema_builder_base.py:47-62 | the corrected inference agrees with the written one on every value without booleans |
| SchemaInference.ConformsToFixedSchema | OIMS_tool_box/OIMSLibrary/python/json_schema_builder_base.py:24-69 | with the bool test first, every parsed document whose lists are homogeneous conforms to its inferred schema |
| SchemaInference.GeneratedSchemaFixedAccepts | OIMS_tool_box/OIMSLibrary/python/json_schema_builder_base.py:10-22 | the corrected top-level schema accepts the document it was generated from |
| SchemaBuilder.MetadataFramesKeyOnce | OIMS_tool_box/OIMSLibrary/python/json_schema_builder.py:180-344 | along the path to the metadata item schema, each key followed occurs once in its dict, so nested subscripts find it |
| SchemaBuilder.LookupMetadataItem | OIMS_tool_box/OIMSLibrary/python/json_schema_builder.py:173-174 | the metadata item schema sits under the path of lines 173-174 in the default schema |
| SchemaBuilder.UpdateMetadataItem | OIMS_tool_box/OIMSLibrary/python/json_schema_builder.py:173-174 | a nested assignment along that path changes the metadata item schema and rebuilds the rest of the schema unchanged |
| SchemaBuilder.UpdateAtLookup | OIMS_tool_box/OIMSLibrary/python/json_schema_builder.py:173-174 | after `j[p0]...[pn][k] = v`, `v` is found under the path followed by `k` |
| SchemaBuilder.UpdateAtFrame | OIMS_tool_box/OIMSLibrary/python/json_schema_builder.py:173-174 | every path that leaves the assigned path reads what it read before |
| SchemaBuilder.OnlyMetadataChanges | OIMS_tool_box/OIMSLibrary/python/json_schema_builder.py:173-174 | the generated schema reads as `default_schema()` on every path except the metadata items' "properties" and "required" |
| SchemaBuilder.MetadataWritten | OIMS_tool_box/OIMSLibrary/python/json_schema_builder.py:75-177 | with a selected item, the collected properties and required list are found at the metadata item schema of the result |
| SchemaBuilder.FindContentItem | OIMS_tool_box/OIMSLibrary/python/json_schema_builder.py:69-73 | the search loop with its `break` returns exactly the first matching item, or none |
| SchemaBuilder.CollectAttributes | OIMS_tool_box/OIMSLibrary/python/json_schema_builder.py:80-170 | the descriptor loop returns exactly the fold of the descriptors in order, or the first exception |
| SchemaBuilder.WriteMetadata | OIMS_tool_box/OIMSLibrary/python/json_schema_builder.py:173-174 | the two assignments give the default schema with the collected "properties" and "required" in the metadata item schema |
| SchemaBuilder.GenerateSchema | OIMS_tool_box/OIMSLibrary/python/json_schema_builder.py:61-177 | the whole procedure returns exactly the schema of its specification function, or its exception |
| SchemaBuilder.SchemaFromSelection | OIMS_tool_box/OIMSLibrary/python/json_schema_builder.py:75-177 | after the search, the default schema without a truthy selection, else the schema built from the item |
| SchemaBuilder.SchemaFromItem | OIMS_tool_box/OIMSLibrary/python/json_schema_builder.py:77-174 | collect the item's descriptors, then write them into the default schema |
| SchemaBuilder.GeneratedFromItem | OIMS_tool_box/OIMSLibrary/python/json_schema_builder.py:69-75 | when an item is selected the result is the schema built from that item |
| SchemaBuilder.ItemSchema | OIMS_tool_box/OIMSLibrary/python/json_schema_builder.py:77-174 | the schema of an item is the default schema around the metadata item schema holding its collected properties and required names |
| SchemaBuilder.SelectFirstMatch | OIMS_tool_box/OIMSLibrary/python/json_schema_builder.py:69-73 | the first dict item whose OIMS_content_object equals the requested one is selected; later matches play no part |
| SchemaBuilder.SelectNoMatch | OIMS_tool_box/OIMSLibrary/python/json_schema_builder.py:69-73 | with no matching dict item nothing is selected |
| SchemaBuilder.SelectedMatches | OIMS_tool_box/OIMSLibrary/python/json_schema_builder.py:71-72 | a selected item is a dict holding the requested OIMS_content_object |
| SchemaBuilder.NoMatchGivesDefault | OIMS_tool_box/OIMSLibrary/python/json_schema_builder.py:69-77 | without a matching item the result (returned at line 177) equals `default_schema()` |
| SchemaBuilder.AttributeMultiple | OIMS_tool_box/OIMSLibrary/python/json_schema_builder.py:95-133 | with `multiple` truthy the attribute starts with its description, type "array" and "items" holding the value schema |
| SchemaBuilder.AttributeSingle | OIMS_tool_box/OIMSLibrary/python/json_schema_builder.py:135-160 | with `multiple` falsy the value schema's keys follow the description directly |
| SchemaBuilder.ValueSchemaScalars | OIMS_tool_box/OIMSLibrary/python/json_schema_builder.py:118-160 | data_type boolean gives "boolean", integer or float "number", anything else but compound_object "string" |
| SchemaBuilder.ValueSchemaCompoundErrors | OIMS_tool_box/OIMSLibrary/python/json_schema_builder.py:101-150 | compound_object raises ValueError with the source's message when the class is not "compound", and when attribute_value_elements is missing or empty |
| SchemaBuilder.ValueSchemaCompound | OIMS_tool_box/OIMSLibrary/python/json_schema_builder.py:101-143 | a compound object with string elements is an object whose properties are exactly the elements |
| SchemaBuilder.ElementPropertiesSpec | OIMS_tool_box/OIMSLibrary/python/json_schema_builder.py:109-143 | each element becomes a `{"type": "string"}` property, and the property keys are exactly the elements |
| SchemaBuilder.VocabularyNamesSpec | OIMS_tool_box/OIMSLibrary/python/json_schema_builder.py:164 | one name per vocabulary element in order, None where absent; it raises exactly when an element is not a dict |
| SchemaBuilder.AttributeEnum | OIMS_tool_box/OIMSLibrary/python/json_schema_builder.py:162-164 | a truthy controlled_vocabulary adds "enum" last, holding the element names in order; otherwise there is no "enum" |
| SchemaBuilder.AddAttributeSkip | OIMS_tool_box/OIMSLibrary/python/json_schema_builder.py:87-89 | a descriptor without a truthy attribute_name changes nothing |
| SchemaBuilder.AddAttributeNamed | OIMS_tool_box/OIMSLibrary/python/json_schema_builder.py:89-170 | a named descriptor stores its schema under its name, in place when the name exists and last otherwise, leaves other names alone, and appends the name to required exactly when it is required |
| SchemaBuilder.AddAttributeKeeps | OIMS_tool_box/OIMSLibrary/python/json_schema_builder.py:170 | a descriptor with another name leaves a property alone |
| SchemaBuilder.CollectRequired | OIMS_tool_box/OIMSLibrary/python/json_schema_builder.py:166-168 | "required" lists, in order, the names of the descriptors whose requirement_level is "required" |
| SchemaBuilder.CollectLastWins | OIMS_tool_box/OIMSLibrary/python/json_schema_builder.py:85-170 | every named descriptor has a property under its name, holding the schema of the last descriptor with that name |
| SchemaBuilder.CollectAbort | OIMS_tool_box/OIMSLibrary/python/json_schema_builder.py:85-170 | once a descriptor raises, the whole loop fails with that exception |
| SnakeCase.UpperOnlyInOims | OIMS_tool_box/OIMSLibrary/python/OIMS_snake_case_converter.py:45-55 | every uppercase letter of the output belongs to an "OIMS" put back by the final replacement |
| SnakeCase.SnakeCasePlain | OIMS_tool_box/OIMSLibrary/python/OIMS_snake_case_converter.py:45-55 | a key without capitals, "__" or "_oims_" is returned unchanged |
| SnakeCase.TwoWords | OIMS_tool_box/OIMSLibrary/python/OIMS_snake_case_converter.py:48-50 | two capitalised lowercase words are lowercased and joined by a single underscore |
| SnakeCase.CamelCaseExample | OIMS_tool_box/OIMSLibrary/python/OIMS_snake_case_converter.py:41-55 | "CamelCase" becomes "camel_case" |
| SnakeCase.MetadataIsSnake | OIMS_tool_box/OIMSLibrary/python/OIMS_snake_case_converter.py:41-55 | "metadata", the key standardisation adds, is its own snake-case form |
| SnakeCase.LeadingOimsLosesUnderscore | OIMS_tool_box/OIMSLibrary/python/OIMS_snake_case_converter.py:45-55 | a key "OIMS_" + t, for a lowercase t without "__" or "_oims_", becomes "OIMS" + t: the underscore after "OIMS" is lost |
| SnakeCase.OimsPropertiesRenamed | OIMS_tool_box/OIMSLibrary/python/OIMS_snake_case_converter.py:41-55 | "OIMS_content_object_properties" becomes "OIMScontent_object_properties" |
| SnakeCase.LeadingOimsKept | OIMS_tool_box/OIMSLibrary/python/OIMS_snake_case_converter.py:52-53 | with the restoration corrected to "_OIMS_" followed by stripping the outer underscores, a key "OIMS_" + t is its own snake-case form |
| SnakeCase.OimsPropertiesKept | OIMS_tool_box/OIMSLibrary/python/OIMS_snake_case_converter.py:52-53 | with the corrected restoration, "OIMS_content_object_properties" is its own snake-case form, as line 105 expects |
| KeyConversion.StandardizeNonList | OIMS_tool_box/OIMSLibrary/python/OIMS_snake_case_converter.py:61-62 | a value that is no list becomes `[{"metadata": [data]}]` |
| KeyConversion.StandardizeAllHave | OIMS_tool_box/OIMSLibrary/python/OIMS_snake_case_converter.py:64-73 | a list whose items all contain "metadata" is returned unchanged |
| KeyConversion.StandardizeFirstWithout | OIMS_tool_box/OIMSLibrary/python/OIMS_snake_case_converter.py:64-72 | at the first item without "metadata" the list becomes `[{"metadata": data}]`, or the error of its `in` test is raised |
| KeyConversion.StandardizeShape | OIMS_tool_box/OIMSLibrary/python/OIMS_snake_case_converter.py:61-73 | the result is the data itself or one of the two wrappings |
| KeyConversion.ConvertKeys | OIMS_tool_box/OIMSLibrary/python/OIMS_snake_case_converter.py:75-111 | the recursive conversion returns exactly the converted value and dictionary of its specification, or its exception |
| KeyConversion.ConvertList | OIMS_tool_box/OIMSLibrary/python/OIMS_snake_case_converter.py:82-88 | the list loop converts the items in order and merges their dictionaries in order |
| KeyConversion.ConvertDict | OIMS_tool_box/OIMSLibrary/python/OIMS_snake_case_converter.py:90-110 | the dict loop renames, prepares and converts the entries in order |
| KeyConversion.ConvertShape | OIMS_tool_box/OIMSLibrary/python/OIMS_snake_case_converter.py:82-111 | scalars come back unchanged with no renamings; lists keep length and order; a dict is rebuilt entry by entry under the snake-case keys |
| KeyConversion.ConvertedKeys | OIMS_tool_box/OIMSLibrary/python/OIMS_snake_case_converter.py:92-108 | the keys of a converted dict are exactly the snake-case forms of the original keys |
| KeyConversion.ConvertRecords | OIMS_tool_box/OIMSLibrary/python/OIMS_snake_case_converter.py:93-95 | the conversion dictionary holds exactly the keys of the document, at any depth, whose snake-case form differs, each mapped to that form |
| KeyConversion.RecordedForm | OIMS_tool_box/OIMSLibrary/python/OIMS_snake_case_converter.py:95 | a recorded key maps to its snake-case form |
| KeyConversion.ConversionDocumentGet | OIMS_tool_box/OIMSLibrary/python/OIMS_snake_case_converter.py:94-95 | in the written conversion dictionary a recorded key holds `{"new_item": its new name, "conversion_type": "CamelCase to snake_case"}`, and any other key nothing |
| KeyConversion.OimsPropertiesNotStandardized | OIMS_tool_box/OIMSLibrary/python/OIMS_snake_case_converter.py:105-106 | the key "OIMS_content_object_properties" is renamed, so its value is converted as it is and never standardised |
| KeyConversion.EntryAttributeName | OIMS_tool_box/OIMSLibrary/python/OIMS_snake_case_converter.py:98-99 | the value of an attribute_name key is snake-cased if it is a string; anything else raises |
| KeyConversion.EntryValueElements | OIMS_tool_box/OIMSLibrary/python/OIMS_snake_case_converter.py:102-103 | a list of strings under attribute_value_elements is snake-cased element by element and records nothing |
| KeyConversion.SnakeAll | OIMS_tool_box/OIMSLibrary/python/OIMS_snake_case_converter.py:103 | a successful element-wise conversion keeps the length, and every element was a string that is now snake-cased |
| KeyConversion.SnakeAllOfStrings | OIMS_tool_box/OIMSLibrary/python/OIMS_snake_case_converter.py:103 | snake-casing a list of strings never raises |
| KeyConversion.ConvertItemsAbort | OIMS_tool_box/OIMSLibrary/python/OIMS_snake_case_converter.py:84-87 | the first item that raises ends the list loop with its error |
| KeyConversion.ConvertFieldsAbort | OIMS_tool_box/OIMSLibrary/python/OIMS_snake_case_converter.py:92-109 | the first entry that raises ends the dict loop with its error |
| Consistency.CheckConsistency | OIMS_tool_box/OIMSLibrary/python/OIMS_snake_case_converter.py:113-134 | the recursive check returns exactly the messages of its specification |
| Consistency.CheckList | OIMS_tool_box/OIMSLibrary/python/OIMS_snake_case_converter.py:120-122 | the list loop concatenates the items' messages in order |
| Consistency.CheckDict | OIMS_tool_box/OIMSLibrary/python/OIMS_snake_case_converter.py:124-132 | the dict loop concatenates each entry's messages in order |
| Consistency.CheckEntry | OIMS_tool_box/OIMSLibrary/python/OIMS_snake_case_converter.py:126-132 | one entry gives its key's message, if the dictionary renames the key, then its value's messages |
| Consistency.InconsistenciesByKeys | OIMS_tool_box/OIMSLibrary/python/OIMS_snake_case_converter.py:118-134 | one message per dict key occurrence, at any depth and in document order, that the dictionary maps to a different name, and nothing for scalars |
| TemplateConverter.ExcelColumnToIndex | OIMS_tool_box/OIMSLibrary/python/FI_convert_template_v_001.py:119-123 | the loop computes the bijective base-26 value of the letters, minus one |
| TemplateConverter.ColumnIndexExamples | OIMS_tool_box/OIMSLibrary/python/FI_convert_template_v_001.py:119-123 | "A" is 0, "Z" is 25, "AA" is 26, "a" is 0, "" is -1 |
| TemplateConverter.ColumnIndexAppend | OIMS_tool_box/OIMSLibrary/python/FI_convert_template_v_001.py:121-122 | appending a letter c gives `(index(s) + 1) * 26 + (c - 'A')` |
| TemplateConverter.ColumnValueOfName | OIMS_tool_box/OIMSLibrary/python/FI_convert_template_v_001.py:119-123 | the column name of a number reads back as that number |
| TemplateConverter.ColumnNameOfValue | OIMS_tool_box/OIMSLibrary/python/FI_convert_template_v_001.py:119-123 | an upper-case column name is the name of its value |
| TemplateConverter.ColumnIndexInjective | OIMS_tool_box/OIMSLibrary/python/FI_convert_template_v_001.py:119-123 | different column names never share an index |
| TemplateConverter.ColumnIndexOnto | OIMS_tool_box/OIMSLibrary/python/FI_convert_template_v_001.py:119-123 | every index from -1 up is the index of a column name |
| TemplateConverter.ColumnIndexIgnoresCase | OIMS_tool_box/OIMSLibrary/python/FI_convert_template_v_001.py:122 | upper- and lower-case letters give the same index |
| TemplateConverter.ParseIntOfStr | OIMS_tool_box/OIMSLibrary/python/FI_convert_template_v_001.py:135-142 | `int(str(i)) == i` for every integer, the minus sign included |
| TemplateConverter.IntRangeSpec | OIMS_tool_box/OIMSLibrary/python/FI_convert_template_v_001.py:137 | `range(lo, hi)` holds the consecutive integers from lo up to hi, none when lo >= hi |
| TemplateConverter.GetRangeColumns | OIMS_tool_box/OIMSLibrary/python/FI_convert_template_v_001.py:129-137 | for vars_in_rows, "x:y" runs from column x up to, not including, column y; "end" stands for max_value |
| TemplateConverter.GetRangeRows | OIMS_tool_box/OIMSLibrary/python/FI_convert_template_v_001.py:129-137 | otherwise "x:y" runs from index x - 1 (rows are 1-based) up to y; "end" stands for max_value |
| TemplateConverter.GetRangeColumnsExample | OIMS_tool_box/OIMSLibrary/python/FI_convert_template_v_001.py:125-137 | "A:C" gives [0, 1] |
| TemplateConverter.GetRangeRowsExample | OIMS_tool_box/OIMSLibrary/python/FI_convert_template_v_001.py:125-137 | "1:3" gives [0, 1, 2] |
| TemplateConverter.GetRangeSingle | OIMS_tool_box/OIMSLibrary/python/FI_convert_template_v_001.py:138-142 | a value without ':' is one column index, or one row index (or the `int()` error) |
| TemplateConverter.GetRangeTooManyParts | OIMS_tool_box/OIMSLibrary/python/FI_convert_template_v_001.py:130 | a value with two or more ':' fails at the two-way unpack |
| TemplateConverter.GetRangeConsecutive | OIMS_tool_box/OIMSLibrary/python/FI_convert_template_v_001.py:125-142 | whatever it returns is a run of consecutive ascending indices |
| TemplateConverter.KeepBelowMembers | OIMS_tool_box/OIMSLibrary/python/FI_convert_template_v_001.py:212 | an index survives the filter exactly when it is in the range and below the column count |
| TemplateConverter.KeepBelowAppend | OIMS_tool_box/OIMSLibrary/python/FI_convert_template_v_001.py:212 | the filter keeps order: it distributes over concatenation |
| TemplateConverter.KeepBelowRange | OIMS_tool_box/OIMSLibrary/python/FI_convert_template_v_001.py:212 | on a range it cuts the range off at the column count |
| TemplateConverter.FrameWithoutNans | OIMS_tool_box/OIMSLibrary/python/FI_convert_template_v_001.py:144-148 | one mapping per row |
| TemplateConverter.RowWithoutNansGet | OIMS_tool_box/OIMSLibrary/python/FI_convert_template_v_001.py:146 | every key of a row's mapping comes from a present cell of the row, and with distinct column names every present cell is in it |
| TemplateConverter.PresentCellsAbsent | OIMS_tool_box/OIMSLibrary/python/FI_convert_template_v_001.py:146 | a column the row does not have is not in its mapping |
| TemplateConverter.TransformRows | OIMS_tool_box/OIMSLibrary/python/FI_convert_template_v_001.py:278-282 | the row loop returns exactly the dict built by one `transformed_data[key] = values` per row, in row order, NaN keys included |
| TemplateConverter.DropNaMembers | OIMS_tool_box/OIMSLibrary/python/FI_convert_template_v_001.py:281 | a value survives `dropna` exactly when a cell holds it |
| TemplateConverter.DropNaAppend | OIMS_tool_box/OIMSLibrary/python/FI_convert_template_v_001.py:281 | `dropna` keeps order: it distributes over concatenation |
| TemplateConverter.TransformLastWins | OIMS_tool_box/OIMSLibrary/python/FI_convert_template_v_001.py:278-282 | a key, NaN included, maps to the present cells, in order, of the last row that has it in column 0 |
| TemplateConverter.TransformAbsent | OIMS_tool_box/OIMSLibrary/python/FI_convert_template_v_001.py:278-282 | a key, NaN included, that no row has in column 0 is not in the dict |
| TemplateConverter.TransformKeys | OIMS_tool_box/OIMSLibrary/python/FI_convert_template_v_001.py:278-282 | the dict's keys are the column-0 values without repeats, in the order of the rows where each first occurs |
| TemplateConverter.TransformNanKey | OIMS_tool_box/OIMSLibrary/python/FI_convert_template_v_001.py:280-282 | the rows whose column-0 cell is NaN share one entry: the NaN key is present exactly when such a row exists, and no key occurs twice |
| DataverseCleaner.AsWrittenAlwaysRaises | OIMS_tool_box/OIMSLibrary/python/convert_dataverse_to_OIMS.py:36 | the look-behind alternatives "{" and ", " differ in width, so Python's `re` raises on every call |
| DataverseCleaner.QuoteCopyStep | OIMS_tool_box/OIMSLibrary/python/convert_dataverse_to_OIMS.py:36 | where the pattern does not match, the character is copied |
| DataverseCleaner.QuoteMatchStep | OIMS_tool_box/OIMSLibrary/python/convert_dataverse_to_OIMS.py:36 | where it matches, the whole identifier goes between double quotes and the scan resumes after it |
| DataverseCleaner.QuotePropertiesMarked | OIMS_tool_box/OIMSLibrary/python/convert_dataverse_to_OIMS.py:34-37 | the output is the input with a quote before each identifier preceded by "{" or ", " and followed by whitespace and ':', and a quote after it; every other character copied |
| DataverseCleaner.MarksShaped | OIMS_tool_box/OIMSLibrary/python/convert_dataverse_to_OIMS.py:36 | quotes open only at the start of a run of identifier characters and close at the end of a run that opened one |
| DataverseCleaner.QuotePropertiesLength | OIMS_tool_box/OIMSLibrary/python/convert_dataverse_to_OIMS.py:36 | the output is longer than the input by two per quoted name |
| DataverseCleaner.QuotePropertiesNoMatch | OIMS_tool_box/OIMSLibrary/python/convert_dataverse_to_OIMS.py:36 | a text in which the pattern never matches comes back unchanged |
| DataverseCleaner.RunLeftAlone | OIMS_tool_box/OIMSLibrary/python/convert_dataverse_to_OIMS.py:36 | a name that starts with a digit or follows '"' is copied as it is |
| DataverseCleaner.QuotePropertiesIdempotent | OIMS_tool_box/OIMSLibrary/python/convert_dataverse_to_OIMS.py:34-37 | quoting twice is quoting once |

## Left out

- File, JSON and spreadsheet reading and writing, argparse, printing, logging and the script
  entry points are not modelled. The functions take the parsed values as parameters.
- The `main` of `convert_dataverse_to_OIMS.py` writes to `args.input`, which the parser never
  defines. It is I/O and is not modelled.
- pandas is not modelled. A sheet is a sequence of rows whose cells are `Option` values, NaN
  being `None`.
- The skipped-row and column bookkeeping of `FI_convert_template_v_001.py` (its `float()`
  parsing and frame drops) is not modelled. Only the line 212 filter is.
- `jsonschema.validate` is a foreign library and is not modelled. `SchemaInference.Conforms`
  is a stand-in for the draft-07 keywords `type`, `properties`, `required` and `items` only.
- `load_metametadata` is not modelled: it is file I/O, and `generate_schema` never uses its
  result.
- Floats keep only whether they are zero. `str()` of a float, list or dict is rendered as a
  placeholder, and such strings appear only inside error messages.
- Error messages are those of Python 3 where the code builds them itself. Python's own
  messages (KeyError, TypeError, AttributeError) are approximated.
- Case mapping (`lower`, `upper`, `[A-Z]`) is modelled on ASCII letters only. Python also maps
  non-ASCII letters.
- `int()` is modelled on ASCII digits with an optional sign and surrounding whitespace.
  Underscores between digits and non-ASCII digits are not accepted.
- ExcelToOims.RowPath: the parent cell must be a string. Line 72 applies `str()` to any cell,
  so a number or boolean there would be split as its printed form.
- ExcelToOims.ExcelSheetToDict: the cursor of lines 83-89 mutates the dict in place. The model
  walks the path on values and rebuilds the dicts along it. Every dict the walk creates is
  fresh, so no aliasing is observable.
- SchemaBuilder.ElementProperties: an element of attribute_value_elements must be a string.
  Python also accepts any other hashable value as a dict key; the model raises TypeError.
- SchemaBuilder.AddAttribute: a truthy attribute_name must be a string. Python would also
  accept a number as the key; the model raises TypeError.
- TemplateConverter.Transform: every NaN cell of column 0 is one dict key. That is what
  Python does when column 0 holds text, because pandas then stores each blank cell as the
  single `np.nan` object and a dict lookup matches it by identity. When column 0 holds
  only numbers, pandas stores it as float64, each row's NaN is a separate float object,
  and Python adds one entry per NaN row. The model does not cover that case, because it
  does not model pandas' column types.
- ExcelToOims.Row: the `parent_property`, `property` and `value` columns are assumed
  present. Lines 72, 77, 80 and 92 read them with `row[...]`, so a sheet without one of
  them raises KeyError at its first row. The model has no such error, because it
  represents a sheet as its rows alone, without column names.
- ExcelToOims.Row: the property cell is a string or empty. Line 92 accepts any non-null
  cell, so a number would become a numeric dict key, and a falsy one (0 or False) would be
  skipped by the test of line 103. The model's dict keys are strings.
- The helper functions the Python code writes inline, such as list comprehensions and nested
  `dict.get` calls, are each one Dafny function. Each loop over a list or a dict is its own
  method.

## Findings

| source | as written | input that shows it | evidently intended | confidence | as-written member | corrected member |
|---|---|---|---|---|---|---|
| OIMS_tool_box/OIMSLibrary/python/json_schema_builder_base.py:47-62 | `isinstance(data, int)` is checked before `isinstance(data, bool)`; a bool is an int, so a boolean gets `{"type": "integer"}` and the "boolean" branch is dead | `{"b": true}`: its schema requires "b" to be an integer, and `true` is not an integer under draft-07, so the document fails its own schema | test bool before int, giving `{"type": "boolean"}`, so that a document conforms to the schema inferred from it | not executed | SchemaInference.DocumentWithBooleanRejected | SchemaInference.GeneratedSchemaFixedAccepts |
| OIMS_tool_box/OIMSLibrary/python/convert_dataverse_to_OIMS.py:36 | the look-behind `(?<=\{\|, )` has alternatives of width 1 and 2; Python's `re` accepts only fixed-width look-behinds, so compiling the pattern raises `re.error` | any input, e.g. `{a: 1}`: the call raises before substituting anything | quote every bare name that follows "{" or ", " and precedes optional whitespace and ':' | not executed | DataverseCleaner.AsWrittenAlwaysRaises | DataverseCleaner.QuotePropertiesIdempotent |
| OIMS_tool_box/OIMSLibrary/python/OIMS_snake_case_converter.py:52-53 | after line 46 has wrapped "OIMS" in underscores and line 50 has collapsed "__", line 53 replaces "_oims_" by "OIMS", removing the key's own underscore after "OIMS" as well | "OIMS_content_object_properties" becomes "OIMScontent_object_properties", so the standardisation of lines 105-106, which tests for "OIMS_content_object_properties", never applies to that key | keep "OIMS" intact: restore "_OIMS_" and strip the outer underscores, so that "OIMS_content_object_properties" is its own snake-case form | not executed | KeyConversion.OimsPropertiesNotStandardized | SnakeCase.OimsPropertiesKept |
