/**
 * The generic select control: the options its search shows, the text its
 * trigger shows, and what a click on an option does to the selection and
 * hands to `onChange`.
 */
module Select {
  import opened Wrappers
  import opened Seqs
  import opened JsText

  datatype SelectOption = SelectOption(value: string, labelText: string, disabled: bool)

  function Differs(v: string): string -> bool {
    (w: string) => w != v
  }

  /**
   * The multiple-mode update of `handleOptionClick`: a selected value is
   * filtered out, any other value is appended.
   */
  function Toggle(selection: seq<string>, v: string): (r: seq<string>)
    ensures v in selection ==> IsSubsequence(r, selection) && v !in r
    ensures v in selection ==> forall i :: 0 <= i < |selection| && selection[i] != v ==> selection[i] in r
    ensures v !in selection ==> r == selection + [v]
  {
    if v in selection then
      FilterIsSubsequence(selection, Differs(v));
      Filter(selection, Differs(v))
    else selection + [v]
  }

  /** A toggle flips the clicked value's membership and no other value's. */
  lemma ToggleFlips(selection: seq<string>, v: string, w: string)
    ensures v in Toggle(selection, v) <==> v !in selection
    ensures w != v ==> (w in Toggle(selection, v) <==> w in selection)
  {
    if v in selection && w != v && w in selection {
      var i :| 0 <= i < |selection| && selection[i] == w;
      assert selection[i] in Toggle(selection, v);
    }
  }

  /** Clicking a value that is not selected, and then clicking it again, restores the selection. */
  lemma ToggleTwiceRestores(selection: seq<string>, v: string)
    requires v !in selection
    ensures Toggle(Toggle(selection, v), v) == selection
  {
    var once := selection + [v];
    assert v in once;
    FilterAppend(selection, [v], Differs(v));
    assert [v][1..] == [];
    FilterAll(selection, Differs(v));
  }

  /** A selection without repeats stays without repeats. */
  lemma ToggleKeepsDistinct(selection: seq<string>, v: string)
    requires forall i, j :: 0 <= i < j < |selection| ==> selection[i] != selection[j]
    ensures var r := Toggle(selection, v); forall i, j :: 0 <= i < j < |r| ==> r[i] != r[j]
  {
    if v in selection {
      FilterKeysDistinct(selection, Differs(v), (w: string) => w);
    }
  }

  function LabelContains(searchTerm: string): SelectOption -> bool {
    (o: SelectOption) => Includes(ToLower(o.labelText), ToLower(searchTerm))
  }

  /** `filteredOptions`. */
  function FilteredOptions(options: seq<SelectOption>, searchable: bool, searchTerm: string): (r: seq<SelectOption>)
    ensures !searchable ==> r == options
    ensures IsSubsequence(r, options)
    ensures searchable ==> forall i :: 0 <= i < |r| ==> Includes(ToLower(r[i].labelText), ToLower(searchTerm))
    ensures searchable ==> forall i :: 0 <= i < |options| && LabelContains(searchTerm)(options[i]) ==> options[i] in r
  {
    if searchable then
      FilterIsSubsequence(options, LabelContains(searchTerm));
      Filter(options, LabelContains(searchTerm))
    else
      FilterAll(options, (o: SelectOption) => true);
      FilterIsSubsequence(options, (o: SelectOption) => true);
      options
  }

  /** An empty search shows every option. */
  lemma EmptySearchShowsAll(options: seq<SelectOption>, searchable: bool)
    ensures FilteredOptions(options, searchable, "") == options
  {
    forall i | 0 <= i < |options| ensures LabelContains("")(options[i]) {
      EmptyIncluded(ToLower(options[i].labelText));
    }
    FilterAll(options, LabelContains(""));
  }

  function ValueIs(v: string): SelectOption -> bool {
    (o: SelectOption) => o.value == v
  }

  /**
   * `displayValue`: the count of selected values in multiple mode; in single
   * mode the label of the first option with the value (an empty label
   * falls back to the value itself); the placeholder when nothing is chosen.
   */
  function DisplayValue(options: seq<SelectOption>, multiple: bool, selectedValues: seq<string>,
                        value: Option<string>, placeholder: string): (r: string)
    ensures multiple && |selectedValues| > 0 ==> r == NatToString(|selectedValues|) + " selected"
    ensures multiple && |selectedValues| == 0 ==> r == placeholder
    ensures !multiple && (value.None? || value.value == "") ==> r == placeholder
    ensures !multiple && value.Some? && value.value != "" ==>
      match Find(options, ValueIs(value.value))
      case None => r == value.value
      case Some(o) => r == if o.labelText != "" then o.labelText else value.value
  {
    if multiple then
      if |selectedValues| > 0 then NatToString(|selectedValues|) + " selected" else placeholder
    else if value.Some? && value.value != "" then
      match Find(options, ValueIs(value.value))
      case Some(o) => if o.labelText != "" then o.labelText else value.value
      case None => value.value
    else placeholder
  }

  /** In single mode, a value no option carries is shown as it is. */
  lemma UnknownValueShownRaw(options: seq<SelectOption>, selectedValues: seq<string>, v: string, placeholder: string)
    requires v != "" && forall i :: 0 <= i < |options| ==> options[i].value != v
    ensures DisplayValue(options, false, selectedValues, Some(v), placeholder) == v
  {
  }

  /** The control's state. */
  class SelectState {
    var selectedValues: seq<string>
    var isOpen: bool
    var searchTerm: string

    /** The initial state: in multiple mode a non-empty `value` starts the selection. */
    constructor (multiple: bool, value: Option<string>)
      ensures multiple && value.Some? && value.value != "" ==> selectedValues == [value.value]
      ensures !(multiple && value.Some? && value.value != "") ==> selectedValues == []
      ensures !isOpen && searchTerm == ""
    {
      if multiple && value.Some? && value.value != "" {
        selectedValues := [value.value];
      } else {
        selectedValues := [];
      }
      isOpen := false;
      searchTerm := "";
    }

    /**
     * `handleOptionClick`: returns what `onChange` receives. In multiple
     * mode the selection is toggled and emitted joined with `,`; in single
     * mode the value is emitted and the list closes with its search cleared.
     */
    method HandleOptionClick(multiple: bool, optionValue: string) returns (emitted: string)
      modifies this
      ensures multiple ==> selectedValues == Toggle(old(selectedValues), optionValue)
      ensures multiple ==> emitted == Join(selectedValues, ",")
      ensures multiple ==> isOpen == old(isOpen) && searchTerm == old(searchTerm)
      ensures !multiple ==> emitted == optionValue && !isOpen && searchTerm == ""
      ensures !multiple ==> selectedValues == old(selectedValues)
    {
      if multiple {
        var newSelection: seq<string>;
        if optionValue in selectedValues {
          newSelection := Filter(selectedValues, Differs(optionValue));
        } else {
          newSelection := selectedValues + [optionValue];
        }
        selectedValues := newSelection;
        emitted := Join(newSelection, ",");
      } else {
        emitted := optionValue;
        isOpen := false;
        searchTerm := "";
      }
    }

    /** The option's `onClick`: a disabled option changes nothing and emits nothing. */
    method ClickOption(option: SelectOption, multiple: bool) returns (emitted: Option<string>)
      modifies this
      ensures option.disabled ==> emitted.None? && unchanged(this)
      ensures !option.disabled && multiple ==>
        selectedValues == Toggle(old(selectedValues), option.value) &&
        emitted == Some(Join(selectedValues, ","))
      ensures !option.disabled && multiple ==> isOpen == old(isOpen) && searchTerm == old(searchTerm)
      ensures !option.disabled && !multiple ==> emitted == Some(option.value) && !isOpen && searchTerm == ""
      ensures !option.disabled && !multiple ==> selectedValues == old(selectedValues)
    {
      if option.disabled {
        emitted := None;
      } else {
        var e := HandleOptionClick(multiple, option.value);
        emitted := Some(e);
      }
    }
  }
}
