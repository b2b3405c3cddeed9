/** The mobile menu's visibility as a two-state machine: the menu button
    flips the `hidden` flag, and every link inside the menu sets it. */
module Menu {

  datatype Click = MenuButton | NavLink

  /** The `hidden` flag after one click. */
  function Step(hidden: bool, click: Click): (after: bool)
    ensures click == MenuButton ==> after != hidden
    ensures click == NavLink ==> after
  {
    match click
    case MenuButton => !hidden
    case NavLink => true
  }

  /** The `hidden` flag after a sequence of clicks, oldest first. */
  function Run(hidden: bool, clicks: seq<Click>): (after: bool)
    decreases clicks
  {
    if clicks == [] then hidden else Run(Step(hidden, clicks[0]), clicks[1..])
  }

  /** Running two sequences of clicks one after the other. */
  lemma {:induction false} RunAppend(hidden: bool, first: seq<Click>, second: seq<Click>)
    ensures Run(hidden, first + second) == Run(Run(hidden, first), second)
    decreases first
  {
    if first == [] {
      assert first + second == second;
    } else {
      assert (first + second)[0] == first[0];
      assert (first + second)[1..] == first[1..] + second;
      RunAppend(Step(hidden, first[0]), first[1..], second);
    }
  }

  predicate OnlyMenuButton(clicks: seq<Click>)
  {
    forall i :: 0 <= i < |clicks| ==> clicks[i] == MenuButton
  }

  /** Menu-button clicks alone: an even number of them restores the
      original state, an odd number inverts it. */
  lemma {:induction false} ButtonParity(hidden: bool, clicks: seq<Click>)
    requires OnlyMenuButton(clicks)
    ensures Run(hidden, clicks) == if |clicks| % 2 == 0 then hidden else !hidden
    decreases clicks
  {
    if clicks != [] {
      ButtonParity(!hidden, clicks[1..]);
    }
  }

  /** Clicking the menu button twice returns the menu to its original state. */
  lemma ButtonTwice(hidden: bool)
    ensures Run(hidden, [MenuButton, MenuButton]) == hidden
  {
    ButtonParity(hidden, [MenuButton, MenuButton]);
  }

  /** After a click on any navigation link the menu is hidden whatever came
      before; later menu-button clicks alone decide the state from there. */
  lemma NavLinkCloses(hidden: bool, before: seq<Click>, after: seq<Click>)
    requires OnlyMenuButton(after)
    ensures Run(hidden, before + [NavLink] + after) == (|after| % 2 == 0)
  {
    RunAppend(hidden, before + [NavLink], after);
    RunAppend(hidden, before, [NavLink]);
    ButtonParity(true, after);
  }
}
