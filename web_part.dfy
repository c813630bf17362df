/**
 * The property pane of the tree-view web part: the library and column
 * dropdown options derived from fetched records, the map from column
 * internal name to column type, the reset rule when the library changes,
 * and the enable/disable rules of the four dropdowns.
 */
module WebPart {
  import opened Wrappers
  import opened Text
  import opened I18n

  /** `IPropertyPaneDropdownOption` with a string key. */
  datatype DropdownOption = DropdownOption(key: string, text: string)

  /** `{ type: string; lookupField?: string }`, the value type of `_columnTypesMap`. */
  datatype ColumnType = ColumnType(typeName: string, lookupField: string)

  /** One element of the library request: `Title`, `Id`, `RootFolder/ServerRelativeUrl`. */
  datatype LibraryRecord = LibraryRecord(title: string, id: string, rootFolderUrl: string)

  /** One element of the field request: `InternalName`, `Title`, `TypeAsString`, `LookupField`. */
  datatype FieldRecord = FieldRecord(internalName: string, title: string, typeAsString: string, lookupField: Option<string>)

  /** `ITreeViewWebPartProps`, the persisted web part properties. */
  datatype WebPartProps = WebPartProps(
    description: string,
    selectedLibraryUrl: Option<string>,
    selectedLibraryTitle: Option<string>,
    metadataColumn1: Option<string>,
    metadataColumn2: Option<string>,
    metadataColumn3: Option<string>)

  // ---------------------------------------------------------------------------
  // Library options
  // ---------------------------------------------------------------------------

  /** `_documentLibraryOptions` after the library request; `None` stands for a rejected request. */
  function LibraryOptions(libraries: Option<seq<LibraryRecord>>, t: Translations): (r: seq<DropdownOption>)
    ensures libraries.None? ==> r == [DropdownOption("error", t.errorLoadingLibraries)]
    ensures libraries.Some? ==> |r| == |libraries.value|
    ensures libraries.Some? ==> forall i :: 0 <= i < |r| ==>
              r[i].key == libraries.value[i].rootFolderUrl && r[i].text == libraries.value[i].title
  {
    match libraries
    case None => [DropdownOption("error", t.errorLoadingLibraries)]
    case Some(libs) =>
      seq(|libs|, i requires 0 <= i < |libs| => DropdownOption(libs[i].rootFolderUrl, libs[i].title))
  }

  /** `options.find((option) => option.key === newValue)?.text`. */
  function FindOptionText(options: seq<DropdownOption>, key: Option<string>): (r: Option<string>)
    ensures r.None? <==> forall i :: 0 <= i < |options| ==> key != Some(options[i].key)
    ensures r.Some? ==> exists i :: 0 <= i < |options| && key == Some(options[i].key) && r.value == options[i].text
                                    && forall j :: 0 <= j < i ==> key != Some(options[j].key)
  {
    if options == [] then None
    else if key == Some(options[0].key) then Some(options[0].text)
    else
      var r := FindOptionText(options[1..], key);
      assert forall i :: 1 <= i < |options| ==> options[i] == options[1..][i - 1];
      r
  }

  /**
   * Selecting a library URL among the fetched libraries finds the title of the
   * first library with that root folder, and nothing when no library has it.
   */
  lemma SelectedLibraryTitle(libs: seq<LibraryRecord>, t: Translations, url: string)
    ensures (forall i :: 0 <= i < |libs| ==> libs[i].rootFolderUrl != url)
              ==> FindOptionText(LibraryOptions(Some(libs), t), Some(url)).None?
    ensures forall i :: 0 <= i < |libs| && libs[i].rootFolderUrl == url
                        && (forall j :: 0 <= j < i ==> libs[j].rootFolderUrl != url) ==>
              FindOptionText(LibraryOptions(Some(libs), t), Some(url)) == Some(libs[i].title)
  {
    var options := LibraryOptions(Some(libs), t);
    var r := FindOptionText(options, Some(url));
    forall i | 0 <= i < |libs| && libs[i].rootFolderUrl == url && (forall j :: 0 <= j < i ==> libs[j].rootFolderUrl != url)
      ensures r == Some(libs[i].title)
    {
      assert Some(url) == Some(options[i].key);
      var k :| 0 <= k < |options| && Some(url) == Some(options[k].key) && r.value == options[k].text
               && forall j :: 0 <= j < k ==> Some(url) != Some(options[j].key);
      assert k == i;
    }
  }

  // ---------------------------------------------------------------------------
  // Column options and the column type map
  // ---------------------------------------------------------------------------

  /** `allowedTypes`. */
  const AllowedTypes: seq<string> := [
    "Text", "Note", "Number", "Integer", "DateTime", "Boolean",
    "Choice", "MultiChoice", "Lookup", "User", "ManagedMetadata"]

  predicate IsAllowedType(typeAsString: string) {
    typeAsString in AllowedTypes
  }

  predicate IsLookupLike(typeAsString: string) {
    typeAsString == "Lookup" || typeAsString == "ManagedMetadata"
  }

  /** `rawListFields.filter((field) => allowedTypes.includes(field.TypeAsString))`. */
  function AllowedFields(fields: seq<FieldRecord>): seq<FieldRecord> {
    if fields == [] then []
    else
      var init, last := fields[..|fields| - 1], fields[|fields| - 1];
      AllowedFields(init) + (if IsAllowedType(last.typeAsString) then [last] else [])
  }

  /** The kept fields are exactly the fetched fields of an allowed type. */
  lemma {:induction false} AllowedFieldsMembers(fields: seq<FieldRecord>)
    ensures |AllowedFields(fields)| <= |fields|
    ensures forall f :: f in AllowedFields(fields) <==> f in fields && IsAllowedType(f.typeAsString)
  {
    if fields != [] {
      var init, last := fields[..|fields| - 1], fields[|fields| - 1];
      AllowedFieldsMembers(init);
      assert fields == init + [last];
    }
  }

  /** `name.endsWith("0")`, character by character. */
  predicate EndsWithZero(name: string) {
    |name| >= 1 && name[|name| - 1] == '0'
  }

  /** `name.endsWith("_0")`, character by character. */
  predicate EndsWithUnderscoreZero(name: string) {
    |name| >= 2 && name[|name| - 2] == '_' && name[|name| - 1] == '0'
  }

  lemma SuffixTests(name: string)
    ensures EndsWithZero(name) <==> EndsWith(name, "0")
    ensures EndsWithUnderscoreZero(name) <==> EndsWith(name, "_0")
  {
    if EndsWithZero(name) {
      assert name[|name| - 1..] == [name[|name| - 1]];
    }
    if EndsWith(name, "0") {
      assert name[|name| - 1..][0] == name[|name| - 1];
    }
    if EndsWithUnderscoreZero(name) {
      assert name[|name| - 2..] == [name[|name| - 2], name[|name| - 1]];
    }
    if EndsWith(name, "_0") {
      assert name[|name| - 2..][0] == name[|name| - 2] && name[|name| - 2..][1] == name[|name| - 1];
    }
  }

  /** `correctedInternalName`: a `_0` or `0` suffix dropped from Lookup and ManagedMetadata fields. */
  function CorrectInternalName(field: FieldRecord): string {
    var name := field.internalName;
    if (EndsWithZero(name) || EndsWithUnderscoreZero(name)) && IsLookupLike(field.typeAsString) then
      if EndsWithUnderscoreZero(name) then name[..|name| - 2] else name[..|name| - 1]
    else name
  }

  /** Only Lookup and ManagedMetadata names change, by losing a `_0` suffix, or else a trailing `0`. */
  lemma CorrectInternalNameCases(field: FieldRecord)
    ensures !IsLookupLike(field.typeAsString) || !EndsWithZero(field.internalName) ==>
              CorrectInternalName(field) == field.internalName
    ensures IsLookupLike(field.typeAsString) && EndsWithUnderscoreZero(field.internalName) ==>
              CorrectInternalName(field) + "_0" == field.internalName
    ensures IsLookupLike(field.typeAsString) && EndsWithZero(field.internalName) && !EndsWithUnderscoreZero(field.internalName) ==>
              CorrectInternalName(field) + "0" == field.internalName
  {
    var name := field.internalName;
    if IsLookupLike(field.typeAsString) && EndsWithUnderscoreZero(name) {
      assert name == name[..|name| - 2] + [name[|name| - 2], name[|name| - 1]];
    } else if IsLookupLike(field.typeAsString) && EndsWithZero(name) {
      assert name == name[..|name| - 1] + [name[|name| - 1]];
    }
  }

  /** The value stored under a field's corrected name: its type, and `LookupField || "Title"`. */
  function ColumnEntry(field: FieldRecord): ColumnType {
    ColumnType(field.typeAsString, if Truthy(field.lookupField) then field.lookupField.value else "Title")
  }

  function ColumnOption(field: FieldRecord): DropdownOption {
    DropdownOption(CorrectInternalName(field), field.title)
  }

  /** The options the `map` callback returns, one per allowed field, in order. */
  function ColumnOptions(allowed: seq<FieldRecord>): (r: seq<DropdownOption>) {
    seq(|allowed|, i requires 0 <= i < |allowed| => ColumnOption(allowed[i]))
  }

  /** `_columnTypesMap` after the `map` callback has run over the allowed fields. */
  function ColumnTypesMap(allowed: seq<FieldRecord>): map<string, ColumnType> {
    if allowed == [] then map[]
    else
      var init, last := allowed[..|allowed| - 1], allowed[|allowed| - 1];
      ColumnTypesMap(init)[CorrectInternalName(last) := ColumnEntry(last)]
  }

  /** The corrected names of the fields, in order: the keys the `map` callback writes. */
  function CorrectedNames(allowed: seq<FieldRecord>): (names: seq<string>)
    ensures |names| == |allowed|
    ensures forall i :: 0 <= i < |allowed| ==> names[i] == CorrectInternalName(allowed[i])
  {
    seq(|allowed|, i requires 0 <= i < |allowed| => CorrectInternalName(allowed[i]))
  }

  /** The map's keys are exactly the corrected names of the fields. */
  lemma {:induction false} ColumnTypesMapKeys(allowed: seq<FieldRecord>)
    ensures forall k :: k in ColumnTypesMap(allowed) <==> k in CorrectedNames(allowed)
  {
    if allowed != [] {
      var init, last := allowed[..|allowed| - 1], allowed[|allowed| - 1];
      ColumnTypesMapKeys(init);
      assert CorrectedNames(allowed) == CorrectedNames(init) + [CorrectInternalName(last)];
    }
  }

  /** A corrected name holds the type and lookup field of the last field with that name. */
  lemma {:induction false} ColumnTypesMapLastWins(allowed: seq<FieldRecord>, i: nat)
    requires i < |allowed|
    requires forall j :: i < j < |allowed| ==> CorrectInternalName(allowed[j]) != CorrectInternalName(allowed[i])
    ensures CorrectInternalName(allowed[i]) in ColumnTypesMap(allowed)
    ensures ColumnTypesMap(allowed)[CorrectInternalName(allowed[i])] == ColumnEntry(allowed[i])
  {
    var init, last := allowed[..|allowed| - 1], allowed[|allowed| - 1];
    assert ColumnTypesMap(allowed) == ColumnTypesMap(init)[CorrectInternalName(last) := ColumnEntry(last)];
    if i < |init| {
      assert allowed[i] == init[i];
      forall j | i < j < |init| ensures CorrectInternalName(init[j]) != CorrectInternalName(init[i]) {
        assert init[j] == allowed[j];
      }
      ColumnTypesMapLastWins(init, i);
    }
  }

  /**
   * The filter and the `map` callback of `onPropertyPaneConfigurationStart`:
   * one option per allowed field, and the type of every option registered
   * under its key, starting from an empty map.
   */
  method BuildColumnOptions(rawListFields: seq<FieldRecord>) returns (options: seq<DropdownOption>, columnTypes: map<string, ColumnType>)
    ensures options == ColumnOptions(AllowedFields(rawListFields))
    ensures columnTypes == ColumnTypesMap(AllowedFields(rawListFields))
  {
    options, columnTypes := [], map[];
    ghost var allowed: seq<FieldRecord> := [];
    for i := 0 to |rawListFields|
      invariant allowed == AllowedFields(rawListFields[..i])
      invariant options == ColumnOptions(allowed)
      invariant columnTypes == ColumnTypesMap(allowed)
    {
      var field := rawListFields[i];
      AllowedFieldsPrefix(rawListFields, i);
      if IsAllowedType(field.typeAsString) {
        var correctedInternalName := CorrectName(field);
        ColumnOptionsSnoc(allowed, field);
        columnTypes := columnTypes[correctedInternalName := ColumnEntry(field)];
        options := options + [DropdownOption(correctedInternalName, field.title)];
        allowed := allowed + [field];
      }
    }
    assert rawListFields[..|rawListFields|] == rawListFields;
  }

  /** The statements of the `map` callback that compute `correctedInternalName`. */
  method CorrectName(field: FieldRecord) returns (correctedInternalName: string)
    ensures correctedInternalName == CorrectInternalName(field)
  {
    correctedInternalName := field.internalName;
    if (EndsWithZero(field.internalName) || EndsWithUnderscoreZero(field.internalName)) && IsLookupLike(field.typeAsString) {
      correctedInternalName := field.internalName[..|field.internalName| - 1];
      if EndsWithUnderscoreZero(field.internalName) {
        correctedInternalName := field.internalName[..|field.internalName| - 2];
      }
    }
  }

  /** Filtering one more field appends it exactly when its type is allowed. */
  lemma AllowedFieldsPrefix(fields: seq<FieldRecord>, i: nat)
    requires i < |fields|
    ensures IsAllowedType(fields[i].typeAsString) ==> AllowedFields(fields[..i + 1]) == AllowedFields(fields[..i]) + [fields[i]]
    ensures !IsAllowedType(fields[i].typeAsString) ==> AllowedFields(fields[..i + 1]) == AllowedFields(fields[..i])
  {
    var s := fields[..i + 1];
    assert s[..|s| - 1] == fields[..i];
  }

  lemma ColumnOptionsSnoc(allowed: seq<FieldRecord>, f: FieldRecord)
    ensures ColumnOptions(allowed + [f]) == ColumnOptions(allowed) + [ColumnOption(f)]
    ensures ColumnTypesMap(allowed + [f]) == ColumnTypesMap(allowed)[CorrectInternalName(f) := ColumnEntry(f)]
  {
    var s := allowed + [f];
    assert s[..|s| - 1] == allowed;
  }

  /** Every column option's key is a key of the type map and every key of the map is some option's key. */
  lemma OptionKeysAreMapKeys(allowed: seq<FieldRecord>)
    ensures |ColumnOptions(allowed)| == |allowed|
    ensures forall i :: 0 <= i < |allowed| ==> ColumnOptions(allowed)[i].key in ColumnTypesMap(allowed)
    ensures forall k :: k in ColumnTypesMap(allowed) ==>
              exists i :: 0 <= i < |allowed| && ColumnOptions(allowed)[i].key == k
  {
    var options, m, names := ColumnOptions(allowed), ColumnTypesMap(allowed), CorrectedNames(allowed);
    ColumnTypesMapKeys(allowed);
    forall i | 0 <= i < |allowed| ensures options[i].key in m {
      assert options[i].key == names[i];
    }
    forall k | k in m ensures exists i :: 0 <= i < |allowed| && options[i].key == k {
      var i :| 0 <= i < |names| && names[i] == k;
      assert options[i].key == k;
    }
  }

  /** Each column option is the option of one of the fields it was built from. */
  lemma ColumnOptionsOfFields(allowed: seq<FieldRecord>)
    ensures forall o :: o in ColumnOptions(allowed) ==> exists f :: f in allowed && o == ColumnOption(f)
  {
    var options := ColumnOptions(allowed);
    forall o | o in options ensures exists f :: f in allowed && o == ColumnOption(f) {
      var i :| 0 <= i < |options| && options[i] == o;
      assert allowed[i] in allowed;
    }
  }

  /**
   * The column dropdowns offer only fetched fields of an allowed type: after
   * the no-column placeholder is put first and the safe filter applied, every
   * option is the option of such a field.
   */
  lemma OfferedColumnsAreAllowedFields(fields: seq<FieldRecord>, t: Translations)
    ensures forall o :: o in SafeColumnOptions([DropdownOption("", t.noColumn)] + ColumnOptions(AllowedFields(fields)), t) ==>
              exists f :: f in fields && IsAllowedType(f.typeAsString) && o == ColumnOption(f)
  {
    var a := AllowedFields(fields);
    var options := ColumnOptions(a);
    var list := [DropdownOption("", t.noColumn)] + options;
    AllowedFieldsMembers(fields);
    ColumnOptionsOfFields(a);
    forall o | o in SafeColumnOptions(list, t)
      ensures exists f :: f in fields && IsAllowedType(f.typeAsString) && o == ColumnOption(f)
    {
      assert o in list && o.key != "";
      assert o in options;
      var f :| f in a && o == ColumnOption(f);
    }
  }

  /** With distinct option keys, every option's key maps to its own field's type and lookup field. */
  lemma ColumnTypesOfDistinctKeys(fields: seq<FieldRecord>)
    requires forall i, j :: 0 <= i < j < |AllowedFields(fields)| ==>
               CorrectInternalName(AllowedFields(fields)[i]) != CorrectInternalName(AllowedFields(fields)[j])
    ensures forall i :: 0 <= i < |AllowedFields(fields)| ==>
              && CorrectInternalName(AllowedFields(fields)[i]) in ColumnTypesMap(AllowedFields(fields))
              && ColumnTypesMap(AllowedFields(fields))[CorrectInternalName(AllowedFields(fields)[i])].typeName
                   == AllowedFields(fields)[i].typeAsString
              && ColumnTypesMap(AllowedFields(fields))[CorrectInternalName(AllowedFields(fields)[i])].lookupField
                   == (if Truthy(AllowedFields(fields)[i].lookupField) then AllowedFields(fields)[i].lookupField.value else "Title")
  {
    var a := AllowedFields(fields);
    forall i | 0 <= i < |a|
      ensures CorrectInternalName(a[i]) in ColumnTypesMap(a) && ColumnTypesMap(a)[CorrectInternalName(a[i])] == ColumnEntry(a[i])
    {
      assert forall j :: i < j < |a| ==> CorrectInternalName(a[i]) != CorrectInternalName(a[j]);
      ColumnTypesMapLastWins(a, i);
    }
  }

  // ---------------------------------------------------------------------------
  // getPropertyPaneConfiguration
  // ---------------------------------------------------------------------------

  /** `PropertyPaneDropdown(targetProperty, { label, options, selectedKey, disabled })`. */
  datatype Dropdown = Dropdown(targetProperty: string, caption: string, options: seq<DropdownOption>,
                               selectedKey: Option<string>, disabled: bool)

  /** The four dropdowns of the single page and group of the property pane. */
  datatype PaneConfiguration = PaneConfiguration(library: Dropdown, column1: Dropdown, column2: Dropdown, column3: Dropdown)

  predicate SafeColumnKey(key: string, t: Translations) {
    key != "error" && key != "" && key != t.selectedLibraryNotFoundOrMissingId
  }

  /** `pnpV1SafeFields`: the column options without the error and placeholder entries, in order. */
  function SafeColumnOptions(options: seq<DropdownOption>, t: Translations): (r: seq<DropdownOption>)
    ensures |r| <= |options|
    ensures forall o :: o in r <==> o in options && SafeColumnKey(o.key, t)
  {
    if options == [] then []
    else
      var init, last := options[..|options| - 1], options[|options| - 1];
      assert options == init + [last];
      SafeColumnOptions(init, t) + (if SafeColumnKey(last.key, t) then [last] else [])
  }

  /** The filter keeps order and repeats: filtering a concatenation concatenates the filtered parts. */
  lemma {:induction false} SafeColumnOptionsAppend(a: seq<DropdownOption>, b: seq<DropdownOption>, t: Translations)
    ensures SafeColumnOptions(a + b, t) == SafeColumnOptions(a, t) + SafeColumnOptions(b, t)
  {
    if b != [] {
      var init, last := b[..|b| - 1], b[|b| - 1];
      SafeColumnOptionsAppend(a, init, t);
      assert (a + b)[..|a + b| - 1] == a + init;
      assert (a + b)[|a + b| - 1] == last;
    } else {
      assert a + b == a;
    }
  }

  /** A single option is kept exactly when its key is safe. */
  lemma SafeColumnOptionsSingle(o: DropdownOption, t: Translations)
    ensures SafeColumnOptions([o], t) == if SafeColumnKey(o.key, t) then [o] else []
  {
    assert [o][..0] == [];
  }

  /** `disableColumnDropdowns`. */
  predicate DisableColumnDropdowns(props: WebPartProps, columnOptions: seq<DropdownOption>) {
    || !Truthy(props.selectedLibraryUrl)
    || |columnOptions| == 0
    || (|columnOptions| == 1 && columnOptions[0].key == "")
  }

  /** `getPropertyPaneConfiguration()` over the properties and the two option fields. */
  function GetPropertyPaneConfiguration(props: WebPartProps, libraryOptions: seq<DropdownOption>,
                                        columnOptions: seq<DropdownOption>, t: Translations): (c: PaneConfiguration)
    ensures c.library.targetProperty == "selectedLibraryUrl" && c.library.caption == t.selectLibrary
    ensures c.column1.targetProperty == "metadataColumn1" && c.column1.caption == t.metadataColumnLevel1
    ensures c.column2.targetProperty == "metadataColumn2" && c.column2.caption == t.metadataColumnLevel2
    ensures c.column3.targetProperty == "metadataColumn3" && c.column3.caption == t.metadataColumnLevel3
    ensures c.library.options == libraryOptions && c.library.selectedKey == props.selectedLibraryUrl
    ensures c.library.disabled <==> |libraryOptions| == 0
    ensures !Truthy(props.selectedLibraryUrl) ==> c.column1.disabled && c.column2.disabled && c.column3.disabled
    ensures |columnOptions| <= 1 && (columnOptions == [] || columnOptions[0].key == "") ==>
              c.column1.disabled && c.column2.disabled && c.column3.disabled
    ensures !c.column1.disabled <==>
              Truthy(props.selectedLibraryUrl) && (|columnOptions| >= 2 || (|columnOptions| == 1 && columnOptions[0].key != ""))
    ensures !Truthy(props.metadataColumn1) ==> c.column2.disabled
    ensures !Truthy(props.metadataColumn2) ==> c.column3.disabled
    ensures c.column2.disabled <==> c.column1.disabled || !Truthy(props.metadataColumn1)
    ensures c.column3.disabled <==> c.column1.disabled || !Truthy(props.metadataColumn2)
    ensures c.column1.options == c.column2.options == c.column3.options == SafeColumnOptions(columnOptions, t)
    ensures forall o :: o in c.column1.options <==> o in columnOptions && SafeColumnKey(o.key, t)
    ensures c.column1.selectedKey == props.metadataColumn1 && c.column2.selectedKey == props.metadataColumn2
            && c.column3.selectedKey == props.metadataColumn3
  {
    var disableColumnDropdowns := DisableColumnDropdowns(props, columnOptions);
    var pnpV1SafeFields := SafeColumnOptions(columnOptions, t);
    PaneConfiguration(
      Dropdown("selectedLibraryUrl", t.selectLibrary, libraryOptions, props.selectedLibraryUrl, |libraryOptions| == 0),
      Dropdown("metadataColumn1", t.metadataColumnLevel1, pnpV1SafeFields, props.metadataColumn1, disableColumnDropdowns),
      Dropdown("metadataColumn2", t.metadataColumnLevel2, pnpV1SafeFields, props.metadataColumn2,
               disableColumnDropdowns || !Truthy(props.metadataColumn1)),
      Dropdown("metadataColumn3", t.metadataColumnLevel3, pnpV1SafeFields, props.metadataColumn3,
               disableColumnDropdowns || !Truthy(props.metadataColumn2)))
  }

  // ---------------------------------------------------------------------------
  // The web part's state
  // ---------------------------------------------------------------------------

  /** The first list of the lookup by root folder URL exists and has a non-empty `Id`. */
  predicate ListFound(listIds: seq<string>) {
    |listIds| > 0 && listIds[0] != ""
  }

  /** The property paths whose change re-renders the web part. */
  const RenderPaths: set<string> :=
    {"selectedLibraryUrl", "metadataColumn1", "metadataColumn2", "metadataColumn3", "description"}

  /** The fields of `TreeViewWebPart` that the property pane reads and writes. */
  class TreeViewWebPart {
    var properties: WebPartProps
    var documentLibraryOptions: seq<DropdownOption>
    var metadataColumnOptions: seq<DropdownOption>
    var columnTypesMap: map<string, ColumnType>
    /** `t`, the bundle chosen when the module loads. */
    const t: Translations

    constructor(properties: WebPartProps, t: Translations)
      ensures this.properties == properties && this.t == t
      ensures documentLibraryOptions == [] && metadataColumnOptions == [] && columnTypesMap == map[]
    {
      this.properties := properties;
      this.t := t;
      documentLibraryOptions, metadataColumnOptions, columnTypesMap := [], [], map[];
    }

    /**
     * `onPropertyPaneConfigurationStart()`. The three requests are inputs:
     * `libraries` (the library list), `listIds` (the `Id`s of the lists whose
     * root folder is the selected URL) and `fetchFields` (the field request
     * for a list `Id`); `None` stands for a rejected request.
     */
    method OnPropertyPaneConfigurationStart(libraries: Option<seq<LibraryRecord>>, listIds: Option<seq<string>>,
                                            fetchFields: string -> Option<seq<FieldRecord>>)
      modifies this
      ensures properties == old(properties)
      ensures documentLibraryOptions == LibraryOptions(libraries, t)
      ensures !Truthy(properties.selectedLibraryUrl) ==>
                metadataColumnOptions == [DropdownOption("", t.selectLibraryFirst)] && columnTypesMap == old(columnTypesMap)
      ensures Truthy(properties.selectedLibraryUrl) && listIds.None? ==>
                metadataColumnOptions == [DropdownOption("error", t.errorLoadingColumns)] && columnTypesMap == old(columnTypesMap)
      ensures Truthy(properties.selectedLibraryUrl) && listIds.Some? && !ListFound(listIds.value) ==>
                metadataColumnOptions == [DropdownOption("", t.selectedLibraryNotFoundOrMissingId)]
                && columnTypesMap == old(columnTypesMap)
      ensures Truthy(properties.selectedLibraryUrl) && listIds.Some? && ListFound(listIds.value)
              && fetchFields(listIds.value[0]).None? ==>
                metadataColumnOptions == [DropdownOption("error", t.errorLoadingColumns)] && columnTypesMap == old(columnTypesMap)
      ensures Truthy(properties.selectedLibraryUrl) && listIds.Some? && ListFound(listIds.value)
              && fetchFields(listIds.value[0]).Some? ==>
                var allowed := AllowedFields(fetchFields(listIds.value[0]).value);
                && metadataColumnOptions == [DropdownOption("", t.noColumn)] + ColumnOptions(allowed)
                && columnTypesMap == ColumnTypesMap(allowed)
    {
      documentLibraryOptions := LibraryOptions(libraries, t);
      if Truthy(properties.selectedLibraryUrl) {
        if listIds.None? {
          metadataColumnOptions := [DropdownOption("error", t.errorLoadingColumns)];
        } else if ListFound(listIds.value) {
          var rawListFields := fetchFields(listIds.value[0]);
          if rawListFields.None? {
            metadataColumnOptions := [DropdownOption("error", t.errorLoadingColumns)];
          } else {
            var options, columnTypes := BuildColumnOptions(rawListFields.value);
            columnTypesMap := columnTypes;
            metadataColumnOptions := [DropdownOption("", t.noColumn)] + options;
          }
        } else {
          metadataColumnOptions := [DropdownOption("", t.selectedLibraryNotFoundOrMissingId)];
        }
      } else {
        metadataColumnOptions := [DropdownOption("", t.selectLibraryFirst)];
      }
    }

    /**
     * `onPropertyPaneFieldChanged(propertyPath, oldValue, newValue)`. The
     * results say whether the column options are reloaded (the call of
     * `onPropertyPaneConfigurationStart`) and whether the web part re-renders.
     */
    method OnPropertyPaneFieldChanged(propertyPath: string, oldValue: Option<string>, newValue: Option<string>)
      returns (reloadOptions: bool, rerender: bool)
      modifies this`properties
      ensures reloadOptions <==> propertyPath == "selectedLibraryUrl" && newValue != oldValue
      ensures rerender <==> propertyPath in RenderPaths
      ensures reloadOptions ==>
                properties == old(properties).(
                  selectedLibraryTitle := FindOptionText(documentLibraryOptions, newValue),
                  metadataColumn1 := Some(""), metadataColumn2 := Some(""), metadataColumn3 := Some(""))
      ensures !reloadOptions ==> properties == old(properties)
      ensures reloadOptions ==>
                var c := GetPropertyPaneConfiguration(properties, documentLibraryOptions, metadataColumnOptions, t);
                c.column2.disabled && c.column3.disabled
    {
      reloadOptions := propertyPath == "selectedLibraryUrl" && newValue != oldValue;
      if reloadOptions {
        var selectedOption := FindOptionText(documentLibraryOptions, newValue);
        properties := properties.(selectedLibraryTitle := selectedOption);
        properties := properties.(metadataColumn1 := Some(""), metadataColumn2 := Some(""), metadataColumn3 := Some(""));
      }
      rerender := propertyPath in RenderPaths;
    }
  }
}
