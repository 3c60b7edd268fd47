/**
 * The editor's selected-marker index after a "Del" click on row `removed`: it follows
 * the selected marker down when a row above it goes, and becomes -1 (nothing selected)
 * when the selected marker itself goes.
 */
module Selection {
  import opened Config

  /** The fix-up the editor applies to `selected` right after removing row `removed`. */
  function SelectionAfterRemove(selected: int, removed: int): int {
    if selected == removed then -1
    else if selected > removed then selected - 1
    else selected
  }

  /**
   * After removing row `removed` of `ms`, the adjusted index designates the same marker
   * as before, or is -1 exactly when that marker was the one removed; no selection stays none.
   */
  lemma {:induction false} SelectionFollowsMarker<T>(ms: seq<T>, selected: int, removed: nat)
    requires removed < |ms|
    requires selected == -1 || 0 <= selected < |ms|
    ensures var after := SelectionAfterRemove(selected, removed);
      (after == -1 <==> selected == -1 || selected == removed)
      && (after != -1 ==> 0 <= after < |ms| - 1 && RemoveAt(ms, removed)[after] == ms[selected])
  {
    var after := SelectionAfterRemove(selected, removed);
    if selected != -1 && selected != removed {
      if selected > removed {
        assert after == selected - 1;
        assert RemoveAt(ms, removed)[after] == ms[after + 1];
      } else {
        assert RemoveAt(ms, removed)[after] == ms[after];
      }
    }
  }
}
