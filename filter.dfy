/**
 * Search filters (`Filter`): a named filter whose `state` the host
 * reassigns, in four kinds (a single choice among options, a checkbox, a
 * tri-state checkbox and a sort order), with equality and hash code taken
 * from the name and the state only.
 */
module Filters {
  import opened Wrappers
  import opened Jvm

  /** `Sort.Selection`, a data class: equal exactly when index and direction are. */
  datatype Selection = Selection(index: Int32, ascending: bool)

  /**
   * A filter's `state` as the JVM holds it: a boxed `Int`, a boxed
   * `Boolean`, a `Selection`, or `null`.
   */
  datatype StateValue = IntState(i: Int32) | BoolState(b: bool) | SelectionState(s: Selection) | NullState

  /**
   * The four subclasses. Their `options` lists are kept as the option names
   * (`getOptionName` is `toString()`); nothing in the core looks inside them.
   */
  datatype FilterKind =
    | SelectFilter(selectOptions: seq<string>)
    | CheckBoxFilter
    | TriStateFilter
    | SortFilter(sortOptions: seq<string>)

  /** `TriState.STATE_UNSELECTED`, `STATE_SELECTED`, `STATE_INDETERMINATE`. */
  const STATE_UNSELECTED: Int32 := 0
  const STATE_SELECTED: Int32 := 1
  const STATE_INDETERMINATE: Int32 := 2

  /** The state values that the subclass's type argument admits. */
  predicate StateFits(kind: FilterKind, v: StateValue) {
    match kind
    case SelectFilter(_) => v.IntState?
    case CheckBoxFilter => v.BoolState?
    case TriStateFilter => v.IntState?
    case SortFilter(_) => v.SelectionState? || v.NullState?
  }

  /** `state?.hashCode() ?: 0`: `Int` hashes to itself, `Boolean` to 1231/1237, a `Selection` as a data class. */
  function StateHashCode(v: StateValue): Int32 {
    match v
    case IntState(i) => i
    case BoolState(b) => BooleanHashCode(b)
    case SelectionState(s) => Wrap32(31 * s.index + BooleanHashCode(s.ascending))
    case NullState => 0
  }

  class Filter {
    const name: string
    const kind: FilterKind
    var state: StateValue

    /** The state has the type the subclass declares. */
    ghost predicate Valid()
      reads this
    {
      StateFits(kind, state)
    }

    /** `Select(name, options, state = 0)`. */
    constructor Select(name: string, options: seq<string>, state: Int32 := 0)
      ensures Valid()
      ensures this.name == name && kind == SelectFilter(options) && this.state == IntState(state)
    {
      this.name := name;
      this.kind := SelectFilter(options);
      this.state := IntState(state);
    }

    /** `CheckBox(name, state = false)`. */
    constructor CheckBox(name: string, state: bool := false)
      ensures Valid()
      ensures this.name == name && kind == CheckBoxFilter && this.state == BoolState(state)
    {
      this.name := name;
      this.kind := CheckBoxFilter;
      this.state := BoolState(state);
    }

    /** `TriState(name, state = STATE_UNSELECTED)`. */
    constructor TriState(name: string, state: Int32 := STATE_UNSELECTED)
      ensures Valid()
      ensures this.name == name && kind == TriStateFilter && this.state == IntState(state)
    {
      this.name := name;
      this.kind := TriStateFilter;
      this.state := IntState(state);
    }

    /** `Sort(name, options, state = null)`. */
    constructor Sort(name: string, options: seq<string>, state: Option<Selection> := None)
      ensures Valid()
      ensures this.name == name && kind == SortFilter(options)
      ensures this.state == (if state.Some? then SelectionState(state.value) else NullState)
    {
      this.name := name;
      this.kind := SortFilter(options);
      this.state := if state.Some? then SelectionState(state.value) else NullState;
    }

    /** Assigning `state`: nothing but the state changes (`name` and `options` are `val`s). */
    method SetState(v: StateValue)
      requires StateFits(kind, v)
      modifies this
      ensures Valid()
      ensures state == v
    {
      state := v;
    }

    /** `TriState.isUnselected()`. */
    predicate IsUnselected()
      reads this
      requires kind.TriStateFilter?
    {
      state == IntState(STATE_UNSELECTED)
    }

    /** `TriState.isSelected()`. */
    predicate IsSelected()
      reads this
      requires kind.TriStateFilter?
    {
      state == IntState(STATE_SELECTED)
    }

    /** `TriState.isIndeterminate()`. */
    predicate IsIndeterminate()
      reads this
      requires kind.TriStateFilter?
    {
      state == IntState(STATE_INDETERMINATE)
    }

    /** `equals(other)`: the same object, or another filter with the same name and state. */
    predicate Equals(other: Filter?)
      reads this, other
    {
      if this == other then true
      else if other == null then false
      else name == other.name && state == other.state
    }

    /** `hashCode()`: `31 * name.hashCode() + (state?.hashCode() ?: 0)`, in `Int` arithmetic. */
    function HashCode(): Int32
      reads this
    {
      Wrap32(31 * StringHashCode(name) + StateHashCode(state))
    }
  }

  // ---------------------------------------------------------------- properties

  /**
   * At most one of the three tri-state predicates holds; exactly one holds
   * when the state is 0, 1 or 2, and none for any other `Int`.
   */
  lemma TriStateExclusive(f: Filter)
    requires f.kind.TriStateFilter? && f.Valid()
    ensures !(f.IsUnselected() && f.IsSelected())
    ensures !(f.IsUnselected() && f.IsIndeterminate())
    ensures !(f.IsSelected() && f.IsIndeterminate())
    ensures (f.IsUnselected() || f.IsSelected() || f.IsIndeterminate()) <==> 0 <= f.state.i <= 2
  {
  }

  /** Equality is decided by name and state alone; the kind and its options do not enter. */
  lemma EqualsByNameAndState(a: Filter, b: Filter)
    ensures a.Equals(b) <==> a.name == b.name && a.state == b.state
  {
  }

  /** `equals` is reflexive, symmetric and transitive. */
  lemma EqualsIsEquivalence(a: Filter, b: Filter, c: Filter)
    ensures a.Equals(a)
    ensures a.Equals(b) <==> b.Equals(a)
    ensures a.Equals(b) && b.Equals(c) ==> a.Equals(c)
    ensures !a.Equals(null)
  {
  }

  /** Equal filters have equal hash codes. */
  lemma HashCodeConsistent(a: Filter, b: Filter)
    requires a.Equals(b)
    ensures a.HashCode() == b.HashCode()
  {
  }

  /** A `Select` and a `TriState` with the same name and `Int` state are equal. */
  method SelectEqualsTriState() returns (equal: bool, sameHash: bool)
    ensures equal && sameHash
  {
    var s := new Filter.Select("Genre", ["Action", "Drama"], 1);
    var t := new Filter.TriState("Genre", STATE_SELECTED);
    equal := s.Equals(t);
    sameHash := s.HashCode() == t.HashCode();
  }

  /** The defaults of the four subclasses: 0, false, STATE_UNSELECTED and null. */
  method DefaultStates() returns (select: StateValue, checkBox: StateValue, triState: StateValue, sort: StateValue)
    ensures select == IntState(0) && checkBox == BoolState(false)
    ensures triState == IntState(STATE_UNSELECTED) && sort == NullState
  {
    var s := new Filter.Select("s", []);
    var c := new Filter.CheckBox("c");
    var t := new Filter.TriState("t");
    var o := new Filter.Sort("o", []);
    select, checkBox, triState, sort := s.state, c.state, t.state, o.state;
  }

  /** Reassigning the state keeps the filter's name and kind, and its equality follows the new state. */
  method ReassignState(f: Filter, other: Filter, v: StateValue) returns (equalAfter: bool)
    requires StateFits(f.kind, v) && f != other
    modifies f
    ensures f.state == v && f.Valid()
    ensures other.state == old(other.state)
    ensures equalAfter <==> f.name == other.name && v == other.state
  {
    f.SetState(v);
    equalAfter := f.Equals(other);
  }
}
