/** The sport filter of the navigation menu: toggling a sport in the
    selection, and whether a sport's checkbox shows as checked. */
module Menu {
  import opened Common

  function Other(sport: string): string -> bool
  {
    (s: string) => s != sport
  }

  /** `handleToggleFilter(sport)` applied to the previous selection: a
      selected sport is removed (every occurrence), another one appended. */
  function ToggleFilter(filters: seq<string>, sport: string): seq<string>
  {
    if sport in filters then Filter(filters, Other(sport)) else filters + [sport]
  }

  /** `filters.length === 0 || filters.includes(sport)`. */
  predicate Checked(filters: seq<string>, sport: string)
  {
    |filters| == 0 || sport in filters
  }

  /** A toggle flips the sport's own membership and no other. */
  lemma ToggleMembership(filters: seq<string>, sport: string, s: string)
    ensures s in ToggleFilter(filters, sport) <==> if s == sport then sport !in filters else s in filters
  {
    if sport in filters {
      FilterMembership(filters, Other(sport), s);
    }
  }

  /** A toggle keeps the other sports in their order; an absent sport ends
      up last. */
  lemma ToggleKeepsOthers(filters: seq<string>, sport: string)
    ensures Filter(ToggleFilter(filters, sport), Other(sport)) == Filter(filters, Other(sport))
    ensures sport !in filters ==> ToggleFilter(filters, sport) == filters + [sport]
  {
    var f := Filter(filters, Other(sport));
    if sport in filters {
      FilterKeepsAll(f, Other(sport));
    } else {
      FilterSnoc(filters, sport, Other(sport));
    }
  }

  /** Toggling an unselected sport twice gives the selection back. */
  lemma ToggleTwice(filters: seq<string>, sport: string)
    requires sport !in filters
    ensures ToggleFilter(ToggleFilter(filters, sport), sport) == filters
  {
    FilterSnoc(filters, sport, Other(sport));
    FilterKeepsAll(filters, Other(sport));
  }

  /** With nothing selected every box is checked; the first toggle selects
      that one sport alone. */
  lemma ToggleFromEmpty(sport: string, s: string)
    ensures Checked([], s)
    ensures ToggleFilter([], sport) == [sport]
    ensures Checked(ToggleFilter([], sport), s) <==> s == sport
  {
  }

  /** After a toggle the sport's box is checked exactly when it was not
      selected, or when it was the only sport selected (removing it empties
      the selection, which checks every box). */
  lemma ToggleChecked(filters: seq<string>, sport: string)
    ensures Checked(ToggleFilter(filters, sport), sport)
        <==> sport !in filters || forall i :: 0 <= i < |filters| ==> filters[i] == sport
  {
    if sport in filters {
      var f := Filter(filters, Other(sport));
      if forall i :: 0 <= i < |filters| ==> filters[i] == sport {
        FilterDropsAll(filters, Other(sport));
      } else {
        var i :| 0 <= i < |filters| && filters[i] != sport;
        FilterMembership(filters, Other(sport), filters[i]);
        FilterMembership(filters, Other(sport), sport);
      }
    }
  }
}
