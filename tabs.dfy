/**
 * js/reciclagem.js, the material tabs: a row of buttons, each naming in its
 * `data-tab` attribute the id of the content panel it shows. A click clears
 * the `active` class of every button and every panel, then sets it on the
 * clicked button and on the panel `document.getElementById` finds.
 */
module MaterialTabs {

  /** `getElementById` over the panels: the position of the first panel
      with the id, or the number of panels when there is none. */
  function FindPanel(ids: seq<string>, id: string): (k: nat)
    ensures k <= |ids|
    ensures k < |ids| ==> ids[k] == id
    ensures forall j :: 0 <= j < k ==> ids[j] != id
  {
    if ids == [] then 0
    else if ids[0] == id then 0
    else FindPanel(ids[1..], id) + 1
  }

  /** An id present among the panels is found. */
  lemma FindPanelPresent(ids: seq<string>, id: string)
    ensures FindPanel(ids, id) < |ids| <==> id in ids
  {
  }

  /** The flags of `n` elements of which only the `k`-th is `active` (none
      when `k` is out of range). */
  function OnlyActive(n: nat, k: int): (flags: seq<bool>)
    ensures |flags| == n
    ensures forall i :: 0 <= i < n ==> (flags[i] <==> i == k)
  {
    seq(n, i => i == k)
  }

  /** The number of set flags. */
  function CountActive(flags: seq<bool>): (count: nat) {
    if flags == [] then 0
    else CountActive(flags[..|flags| - 1]) + (if flags[|flags| - 1] then 1 else 0)
  }

  /** Exactly one element is active when `k` is in range, none otherwise. */
  lemma {:induction false} OnlyActiveCount(n: nat, k: int)
    ensures CountActive(OnlyActive(n, k)) == (if 0 <= k < n then 1 else 0)
  {
    if n > 0 {
      assert OnlyActive(n, k)[..n - 1] == OnlyActive(n - 1, k);
      OnlyActiveCount(n - 1, k);
    }
  }

  class TabBar {
    const targets: seq<string>      // `data-tab` of each button
    const panelIds: seq<string>     // id of each `.tab-content` panel
    const buttonActive: array<bool>
    const panelActive: array<bool>

    predicate Valid()
      reads this
    {
      buttonActive.Length == |targets| && panelActive.Length == |panelIds|
      && buttonActive != panelActive
    }

    constructor (targets0: seq<string>, panelIds0: seq<string>)
      ensures Valid()
      ensures targets == targets0 && panelIds == panelIds0
      ensures fresh(buttonActive) && fresh(panelActive)
      ensures buttonActive[..] == OnlyActive(|targets0|, -1)
      ensures panelActive[..] == OnlyActive(|panelIds0|, -1)
    {
      targets, panelIds := targets0, panelIds0;
      buttonActive := new bool[|targets0|](_ => false);
      panelActive := new bool[|panelIds0|](_ => false);
    }

    /** The click handler of button `b`. When no panel has the id the
        button names, the handler stops after activating the clicked button
        (the lookup gives `null`), so no panel is active. */
    method Click(b: nat)
      requires Valid() && b < |targets|
      modifies buttonActive, panelActive
      ensures Valid()
      ensures buttonActive[..] == OnlyActive(|targets|, b)
      ensures panelActive[..] == OnlyActive(|panelIds|, FindPanel(panelIds, targets[b]))
    {
      var i := 0;
      while i < buttonActive.Length
        invariant 0 <= i <= buttonActive.Length
        invariant forall j :: 0 <= j < i ==> !buttonActive[j]
      {
        buttonActive[i] := false;
        i := i + 1;
      }
      i := 0;
      while i < panelActive.Length
        invariant 0 <= i <= panelActive.Length
        invariant forall j :: 0 <= j < i ==> !panelActive[j]
        invariant forall j :: 0 <= j < buttonActive.Length ==> !buttonActive[j]
      {
        panelActive[i] := false;
        i := i + 1;
      }
      buttonActive[b] := true;
      var k := FindPanel(panelIds, targets[b]);
      if k < panelActive.Length {
        panelActive[k] := true;
      }
    }
  }

  /** After a click exactly one button is active, and exactly one panel
      when some panel has the named id. */
  lemma ClickActivatesOne(targets: seq<string>, panelIds: seq<string>, b: nat)
    requires b < |targets|
    ensures CountActive(OnlyActive(|targets|, b)) == 1
    ensures CountActive(OnlyActive(|panelIds|, FindPanel(panelIds, targets[b])))
            == (if targets[b] in panelIds then 1 else 0)
  {
    OnlyActiveCount(|targets|, b);
    OnlyActiveCount(|panelIds|, FindPanel(panelIds, targets[b]));
    FindPanelPresent(panelIds, targets[b]);
  }
}
