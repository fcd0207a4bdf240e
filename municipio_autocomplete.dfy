/**
 * The municipality picker: typing two characters or more schedules a
 * search 300 ms later (a newer query replaces the pending one), the list
 * opens when results arrive, and the arrow keys move through it with
 * wrap-around.
 */
module MunicipioAutocomplete {
  import opened Wrappers

  const MinQueryLength := 2

  datatype Key = ArrowDown | ArrowUp | Enter | Escape | OtherKey

  /** ArrowDown: the next option, from the last back to the first. */
  function NextIndex(prev: int, n: int): int
  {
    if prev < n - 1 then prev + 1 else 0
  }

  /** ArrowUp: the previous option, from the first (or from none) to the last. */
  function PrevIndex(prev: int, n: int): int
  {
    if prev > 0 then prev - 1 else n - 1
  }

  /** Both moves stay on an option, wrap at the ends, and undo each other. */
  lemma ArrowKeysWrap(i: int, n: int)
    requires n > 0 && -1 <= i < n
    ensures 0 <= NextIndex(i, n) < n && 0 <= PrevIndex(i, n) < n
    ensures i == n - 1 ==> NextIndex(i, n) == 0
    ensures i <= 0 ==> PrevIndex(i, n) == n - 1
    ensures 0 <= i ==> PrevIndex(NextIndex(i, n), n) == i && NextIndex(PrevIndex(i, n), n) == i
  {
  }

  class Autocomplete {
    /** The text in the box. */
    var inputText: string
    /** The `value` prop: the committed municipality. */
    var value: string
    var options: seq<string>
    var isOpen: bool
    var loading: bool
    var activeIndex: int
    /** The query whose 300 ms timer is running, if any. */
    var pending: Option<string>

    /** The list is open only with options, and the highlighted option, if any, is one of them. */
    predicate Valid()
      reads this
    {
      activeIndex >= -1
      && (|options| > 0 ==> activeIndex < |options|)
      && (isOpen ==> |options| > 0)
      && (pending.Some? ==> |pending.value| >= MinQueryLength)
    }

    constructor (initial: string)
      ensures Valid()
      ensures inputText == initial && value == initial && options == [] && !isOpen && !loading
      ensures activeIndex == -1 && pending.None?
    {
      inputText := initial;
      value := initial;
      options := [];
      isOpen := false;
      loading := false;
      activeIndex := -1;
      pending := None;
    }

    /**
     * `fetchOptions`: the pending timer is cancelled; a short query empties
     * and closes the list (leaving `loading` as it was), a longer one sets
     * `loading` and becomes the pending query.
     */
    method FetchOptions(query: string)
      requires Valid()
      modifies this`options, this`isOpen, this`loading, this`pending
      ensures Valid()
      ensures |query| < MinQueryLength ==> options == [] && !isOpen && loading == old(loading) && pending.None?
      ensures |query| >= MinQueryLength ==> options == old(options) && isOpen == old(isOpen) && loading && pending == Some(query)
    {
      pending := None;
      if |query| < MinQueryLength {
        options := [];
        isOpen := false;
        return;
      }
      loading := true;
      pending := Some(query);
    }

    /** The pending timer fires with the search's outcome (`None` when it failed); the query searched is returned. */
    method TimerFired(result: Option<seq<string>>) returns (searched: string)
      requires Valid() && pending.Some?
      modifies this`options, this`isOpen, this`loading, this`activeIndex, this`pending
      ensures Valid()
      ensures searched == old(pending.value) && pending.None? && !loading
      ensures result.Some? ==> options == result.value && (isOpen <==> |result.value| > 0) && activeIndex == -1
      ensures result.None? ==> options == [] && !isOpen && activeIndex == old(activeIndex)
    {
      searched := pending.value;
      pending := None;
      match result {
        case Some(data) =>
          options := data;
          isOpen := |data| > 0;
          activeIndex := -1;
        case None =>
          options := [];
          isOpen := false;
      }
      loading := false;
    }

    /** `handleInputChange`: editing away from a committed value reports `""` to the parent (`changed`). */
    method HandleInputChange(text: string) returns (changed: Option<string>)
      requires Valid()
      modifies this`inputText, this`options, this`isOpen, this`loading, this`pending
      ensures Valid()
      ensures inputText == text
      ensures changed == if old(value) != "" && text != old(value) then Some("") else None
      ensures |text| < MinQueryLength ==> options == [] && !isOpen && loading == old(loading) && pending.None?
      ensures |text| >= MinQueryLength ==> options == old(options) && isOpen == old(isOpen) && loading && pending == Some(text)
    {
      inputText := text;
      changed := if value != "" && text != value then Some("") else None;
      FetchOptions(text);
    }

    /** `selectOption`: the option becomes both the text and the value, and the list closes. */
    method SelectOption(i: int) returns (changed: Option<string>)
      requires Valid() && 0 <= i < |options|
      modifies this`inputText, this`isOpen, this`activeIndex
      ensures Valid()
      ensures inputText == old(options[i]) && changed == Some(old(options[i]))
      ensures !isOpen && activeIndex == -1
    {
      var name := options[i];
      inputText := name;
      changed := Some(name);
      isOpen := false;
      activeIndex := -1;
    }

    /** `handleClear`: text, value and options are reset; the highlight and any pending search are left as they are. */
    method HandleClear() returns (changed: Option<string>)
      requires Valid()
      modifies this`inputText, this`options, this`isOpen
      ensures Valid()
      ensures inputText == "" && changed == Some("") && options == [] && !isOpen
    {
      inputText := "";
      changed := Some("");
      options := [];
      isOpen := false;
    }

    /**
     * `handleKeyDown`. Closed: ArrowDown opens on the first option when
     * there are options, other keys do nothing. Open: the arrows move with
     * wrap-around, Enter selects the highlighted option, Escape closes.
     */
    method HandleKeyDown(key: Key) returns (changed: Option<string>)
      requires Valid()
      modifies this`inputText, this`isOpen, this`activeIndex
      ensures Valid()
      ensures !old(isOpen) && key == ArrowDown && |options| > 0 ==> isOpen && activeIndex == 0 && changed.None?
      ensures !old(isOpen) && (key != ArrowDown || |options| == 0) ==>
        isOpen == old(isOpen) && activeIndex == old(activeIndex) && changed.None?
      ensures old(isOpen) && key == ArrowDown ==> isOpen && activeIndex == NextIndex(old(activeIndex), |options|)
      ensures old(isOpen) && key == ArrowUp ==> isOpen && activeIndex == PrevIndex(old(activeIndex), |options|)
      ensures old(isOpen) && key == Enter && old(activeIndex) >= 0 ==>
        changed == Some(options[old(activeIndex)]) && inputText == options[old(activeIndex)] && !isOpen && activeIndex == -1
      ensures old(isOpen) && key == Enter && old(activeIndex) < 0 ==> isOpen && activeIndex == old(activeIndex) && changed.None?
      ensures old(isOpen) && key == OtherKey ==> isOpen && activeIndex == old(activeIndex)
      ensures old(isOpen) && key == Escape ==> !isOpen && activeIndex == -1 && changed.None?
      ensures key != Enter ==> inputText == old(inputText) && changed.None?
    {
      changed := None;
      if !isOpen {
        if key == ArrowDown && |options| > 0 {
          isOpen := true;
          activeIndex := 0;
        }
        return;
      }
      match key {
        case ArrowDown =>
          activeIndex := NextIndex(activeIndex, |options|);
        case ArrowUp =>
          activeIndex := PrevIndex(activeIndex, |options|);
        case Enter =>
          if activeIndex >= 0 && activeIndex < |options| {
            changed := SelectOption(activeIndex);
          }
        case Escape =>
          isOpen := false;
          activeIndex := -1;
        case OtherKey =>
      }
    }

    /** Focus reopens the list when it has options, the text has two characters or more and nothing is committed. */
    method Focus()
      requires Valid()
      modifies this`isOpen
      ensures Valid()
      ensures isOpen == (old(isOpen) || (|options| > 0 && |inputText| >= MinQueryLength && value == ""))
    {
      if |options| > 0 && |inputText| >= MinQueryLength && value == "" {
        isOpen := true;
      }
    }

    /** A mouse-down outside the component closes the list. */
    method OutsideClick()
      requires Valid()
      modifies this`isOpen
      ensures Valid() && !isOpen
    {
      isOpen := false;
    }

    /** The parent passes a new `value`: the text follows it. */
    method ValueChanged(v: string)
      requires Valid()
      modifies this`value, this`inputText
      ensures Valid()
      ensures value == v && inputText == v
    {
      value := v;
      inputText := v;
    }
  }
}
