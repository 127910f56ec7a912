/**
 * The drop-down select of the settings panel, as a keyboard-navigation
 * automaton over two pieces of state: whether the list is open, and which
 * option is highlighted (-1 for none). Every instance has an id; opening one
 * instance tells all others to close, so at most one list is open at a time.
 */
module StyledSelect {
  import opened Wrappers

  /** The keys the option list reacts to; Other stands for every other key. */
  datatype Key = Escape | ArrowDown | ArrowUp | Home | End | Enter | Space | Other

  /** `options.findIndex(opt => opt.value === value)`: the first match, or -1. */
  function FindIndex<V(==)>(options: seq<V>, value: V): (k: int)
    ensures -1 <= k < |options|
    ensures k >= 0 ==> options[k] == value && forall j :: 0 <= j < k ==> options[j] != value
    ensures k == -1 ==> forall j :: 0 <= j < |options| ==> options[j] != value
  {
    if |options| == 0 then -1
    else if options[0] == value then 0
    else
      var k := FindIndex(options[1..], value);
      if k == -1 then -1 else k + 1
  }

  /** The highlight on opening: the selected option, else the first, else none. */
  function InitialHighlight<V(==)>(options: seq<V>, value: V): (h: int)
    ensures -1 <= h < |options|
    ensures h == -1 <==> |options| == 0
    ensures value in options ==> options[h] == value
    ensures value !in options && |options| > 0 ==> h == 0
  {
    var idx := FindIndex(options, value);
    if idx >= 0 then idx else if |options| > 0 then 0 else -1
  }

  /**
   * ArrowDown: the next option, wrapping from the last to the first; from no
   * highlight, the first. It stays on an option, one step on modulo n.
   */
  function NextDown(prev: int, n: nat): (next: int)
    ensures n > 0 && -1 <= prev < n ==> 0 <= next < n && next == (prev + 1) % n
  {
    if prev < n - 1 then prev + 1 else 0
  }

  /**
   * ArrowUp: the previous option, wrapping from the first (or from none) to
   * the last. From an option it is one step back modulo n.
   */
  function NextUp(prev: int, n: nat): (next: int)
    ensures n > 0 && -1 <= prev < n ==> 0 <= next < n
    ensures n > 0 && 0 <= prev < n ==> next == (prev - 1) % n
  {
    if prev > 0 then prev - 1 else n - 1
  }

  /** On an option, ArrowUp undoes ArrowDown and ArrowDown undoes ArrowUp. */
  lemma ArrowsInverse(p: int, n: nat)
    requires 0 <= p < n
    ensures NextUp(NextDown(p, n), n) == p
    ensures NextDown(NextUp(p, n), n) == p
  {
  }

  /** With no highlight, ArrowDown goes to the first option and ArrowUp to the last; so does ArrowUp from the first. */
  lemma ArrowsFromNone(n: nat)
    requires n > 0
    ensures NextDown(-1, n) == 0
    ensures NextUp(-1, n) == n - 1 && NextUp(0, n) == n - 1
  {
  }

  /** The highlight after pressing ArrowDown `k` times from `p`. */
  function DownTimes(p: int, n: nat, k: nat): int
  {
    if k == 0 then p else NextDown(DownTimes(p, n, k - 1), n)
  }

  /**
   * ArrowDown walks the options cyclically: j presses (at most n) from p land
   * on p + j, wrapping once past the last option. So n presses from an option
   * return to it, and j presses from no highlight land on option j - 1.
   */
  lemma {:induction false} DownCycles(p: int, n: nat, j: nat)
    requires -1 <= p < n && j <= n
    ensures DownTimes(p, n, j) == if p + j < n then p + j else p + j - n
  {
    if j > 0 {
      DownCycles(p, n, j - 1);
    }
  }

  class Select<V(==)> {
    var isOpen: bool
    var highlightedIndex: int
    var options: seq<V>
    var value: V
    const id: nat

    /** The highlight is an option or none, and none while the list is closed. */
    ghost predicate Valid()
      reads this
    {
      -1 <= highlightedIndex < |options| && (!isOpen ==> highlightedIndex == -1)
    }

    constructor(id: nat, options: seq<V>, value: V)
      ensures Valid()
      ensures this.id == id && this.options == options && this.value == value
      ensures !isOpen && highlightedIndex == -1
    {
      this.id := id;
      this.options := options;
      this.value := value;
      isOpen := false;
      highlightedIndex := -1;
    }

    /** The open effect: set the initial highlight on opening, clear it on closing. */
    method OpenEffect()
      modifies this
      ensures isOpen == old(isOpen) && options == old(options) && value == old(value)
      ensures highlightedIndex == (if isOpen then InitialHighlight(options, value) else -1)
      ensures Valid()
    {
      if isOpen {
        highlightedIndex := InitialHighlight(options, value);
      } else {
        highlightedIndex := -1;
      }
    }

    /**
     * New props from the parent. The open effect and then the clamp effect
     * run in the same commit; the clamp tests the highlight of the render
     * (the old one), so a highlight that fell outside the new options ends
     * up cleared.
     */
    method ReceiveProps(newOptions: seq<V>, newValue: V)
      modifies this
      ensures options == newOptions && value == newValue && isOpen == old(isOpen)
      ensures old(highlightedIndex) >= |newOptions| ==> highlightedIndex == -1
      ensures old(highlightedIndex) < |newOptions| ==>
        highlightedIndex == (if isOpen then InitialHighlight(newOptions, newValue) else -1)
      ensures Valid()
    {
      var rendered := highlightedIndex;
      options, value := newOptions, newValue;
      var next := if isOpen then InitialHighlight(options, value) else -1;
      if rendered >= |options| {
        next := -1;
      }
      highlightedIndex := next;
    }

    /** The clamp effect on its own: a highlight past the last option becomes none. */
    method ClampEffect()
      modifies this
      ensures isOpen == old(isOpen) && options == old(options) && value == old(value)
      ensures highlightedIndex == (if old(highlightedIndex) >= |options| then -1 else old(highlightedIndex))
    {
      if highlightedIndex >= |options| {
        highlightedIndex := -1;
      }
    }

    /** Button click, or Enter / Space on the button: open (then the open effect), or close. */
    method Toggle()
      requires Valid()
      modifies this
      ensures isOpen == !old(isOpen) && options == old(options) && value == old(value)
      ensures highlightedIndex == (if isOpen then InitialHighlight(options, value) else -1)
      ensures Valid()
    {
      isOpen := !isOpen;
      OpenEffect();
    }

    /** Choosing an option: report its value to the parent, close, clear the highlight. */
    method OptionSelect(optionValue: V) returns (changed: V)
      modifies this
      ensures changed == optionValue
      ensures !isOpen && highlightedIndex == -1
      ensures options == old(options) && value == old(value)
      ensures Valid()
    {
      changed := optionValue;
      isOpen := false;
      highlightedIndex := -1;
    }

    /** The pointer entering option `idx` of the list, which is rendered only while open: it becomes the highlight. */
    method MouseEnter(idx: int)
      requires Valid() && isOpen && 0 <= idx < |options|
      modifies this
      ensures highlightedIndex == idx && 0 <= highlightedIndex < |options|
      ensures isOpen && options == old(options) && value == old(value)
      ensures Valid()
    {
      highlightedIndex := idx;
    }

    /**
     * A key on the option list, which exists only while the list is open.
     * Returns the value handed to the parent's `onChange`, if any.
     */
    method ListKeyDown(key: Key) returns (changed: Option<V>)
      requires Valid() && isOpen
      modifies this
      ensures Valid()
      ensures options == old(options) && value == old(value)
      ensures |options| == 0 ==> changed == None && isOpen && highlightedIndex == old(highlightedIndex)
      ensures |options| > 0 ==> match key
        case Escape => changed == None && !isOpen && highlightedIndex == -1
        case ArrowDown => changed == None && isOpen && highlightedIndex == NextDown(old(highlightedIndex), |options|)
        case ArrowUp => changed == None && isOpen && highlightedIndex == NextUp(old(highlightedIndex), |options|)
        case Home => changed == None && isOpen && highlightedIndex == 0
        case End => changed == None && isOpen && highlightedIndex == |options| - 1
        case Enter | Space =>
          if 0 <= old(highlightedIndex) < |options| then
            changed == Some(options[old(highlightedIndex)]) && !isOpen && highlightedIndex == -1
          else changed == None && isOpen && highlightedIndex == old(highlightedIndex)
        case Other => changed == None && isOpen && highlightedIndex == old(highlightedIndex)
    {
      changed := None;
      if |options| == 0 {
        return;
      }
      match key
      case Escape =>
        isOpen := false;
        highlightedIndex := -1;
      case ArrowDown =>
        highlightedIndex := NextDown(highlightedIndex, |options|);
      case ArrowUp =>
        highlightedIndex := NextUp(highlightedIndex, |options|);
      case Home =>
        highlightedIndex := 0;
      case End =>
        highlightedIndex := |options| - 1;
      case Enter | Space =>
        if highlightedIndex >= 0 && highlightedIndex < |options| {
          var v := OptionSelect(options[highlightedIndex]);
          changed := Some(v);
        }
      case Other =>
    }

    /** A mouse press anywhere on the page: one outside this select closes it. */
    method MouseDown(inside: bool)
      modifies this
      ensures inside ==> isOpen == old(isOpen) && highlightedIndex == old(highlightedIndex)
      ensures !inside ==> !isOpen && highlightedIndex == -1
      ensures options == old(options) && value == old(value)
    {
      if !inside {
        isOpen := false;
        highlightedIndex := -1;
      }
    }

    /** The "styled-select-open" event from the instance `openerId`: any other instance closes. */
    method OtherOpened(openerId: nat)
      modifies this
      ensures openerId != id ==> !isOpen && highlightedIndex == -1
      ensures openerId == id ==> isOpen == old(isOpen) && highlightedIndex == old(highlightedIndex)
      ensures options == old(options) && value == old(value)
    {
      if openerId != id {
        isOpen := false;
        highlightedIndex := -1;
      }
    }
  }

  /** Instances with pairwise distinct ids (and so distinct objects). */
  ghost predicate DistinctIds<V>(selects: seq<Select<V>>)
    reads set k | 0 <= k < |selects| :: selects[k]
  {
    forall a, b :: 0 <= a < b < |selects| ==> selects[a].id != selects[b].id
  }

  /**
   * Opening instance `i`: the event is dispatched to every instance first,
   * then `i` opens. Afterwards `i` is the only open instance.
   */
  method OpenThisSelect<V(==)>(selects: seq<Select<V>>, i: nat)
    requires i < |selects| && DistinctIds(selects)
    requires !selects[i].isOpen && selects[i].Valid()
    modifies set k | 0 <= k < |selects| :: selects[k]
    ensures selects[i].isOpen
    ensures selects[i].highlightedIndex == InitialHighlight(selects[i].options, selects[i].value)
    ensures forall k :: 0 <= k < |selects| && k != i ==> !selects[k].isOpen && selects[k].highlightedIndex == -1
    ensures forall k :: 0 <= k < |selects| ==>
      selects[k].options == old(selects[k].options) && selects[k].value == old(selects[k].value)
    ensures forall k :: 0 <= k < |selects| ==> selects[k].Valid()
    ensures forall a, b :: 0 <= a < |selects| && 0 <= b < |selects| && selects[a].isOpen && selects[b].isOpen ==> a == b
  {
    var opener := selects[i].id;
    var k := 0;
    while k < |selects|
      invariant k <= |selects|
      invariant forall j :: 0 <= j < k && j != i ==> !selects[j].isOpen && selects[j].highlightedIndex == -1
      invariant !selects[i].isOpen && selects[i].highlightedIndex == -1
      invariant forall j :: 0 <= j < |selects| ==>
        selects[j].options == old(selects[j].options) && selects[j].value == old(selects[j].value)
    {
      selects[k].OtherOpened(opener);
      k := k + 1;
    }
    selects[i].Toggle();
  }
}
