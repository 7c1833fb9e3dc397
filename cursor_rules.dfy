/** Which mouse cursor a window shows for the actions an object offers: the
    rule of `Window::setCursorDependingOnActionsAvailable`, stated on values. */
module CursorRules {
  import opened Wrappers

  /** An action code of the pattern table. Only Look, Talk and Use matter to
      the cursor; every other code is carried as `Other`. */
  datatype Action = Look | Talk | Use | Other(code: int)

  /** The cursor shapes the window chooses between. */
  datatype CursorType = Passive | Active | Eye | Hand | Mouth

  /** Look, Talk and Use each have a cursor of their own. */
  predicate IsVerb(a: Action) {
    a.Look? || a.Talk? || a.Use?
  }

  /** The cursor of a single Look, Talk or Use action: eye, mouth, hand. */
  function VerbCursor(a: Action): (c: CursorType)
    requires IsVerb(a)
    ensures c != Passive && c != Active
    ensures c == Eye <==> a == Look
    ensures c == Mouth <==> a == Talk
    ensures c == Hand <==> a == Use
  {
    match a
    case Look => Eye
    case Talk => Mouth
    case Use => Hand
  }

  /** The number of positions of `s` holding Look, Talk or Use; a repeated
      action is counted at each of its positions. */
  function VerbCount(s: seq<Action>): (n: nat)
    ensures n == 0 <==> forall i :: 0 <= i < |s| ==> !IsVerb(s[i])
  {
    if |s| == 0 then 0
    else VerbCount(s[..|s| - 1]) + (if IsVerb(s[|s| - 1]) then 1 else 0)
  }

  /** The Look, Talk or Use action nearest the end of `s`, if there is one. */
  function LastVerb(s: seq<Action>): (r: Option<Action>)
    ensures r.Some? ==> IsVerb(r.value)
    ensures r.Some? ==>
      exists k :: 0 <= k < |s| && s[k] == r.value && forall j :: k < j < |s| ==> !IsVerb(s[j])
    ensures r.None? <==> VerbCount(s) == 0
  {
    if |s| == 0 then None
    else if IsVerb(s[|s| - 1]) then Some(s[|s| - 1])
    else LastVerb(s[..|s| - 1])
  }

  /** The cursor for the action list `s`: passive when there is no action at
      all, the action's own cursor when exactly one entry is Look, Talk or Use,
      and the generic active cursor otherwise. */
  function CursorFor(s: seq<Action>): (c: CursorType)
    ensures c == Passive <==> |s| == 0
  {
    if |s| == 0 then Passive
    else if VerbCount(s) == 1 then VerbCursor(LastVerb(s).value)
    else Active
  }

  /** Position `i` holds the only Look, Talk or Use entry of `s`. */
  predicate OnlyVerbAt(s: seq<Action>, i: int) {
    0 <= i < |s| && IsVerb(s[i]) && forall j :: 0 <= j < |s| && j != i ==> !IsVerb(s[j])
  }

  /** Two distinct positions of `s` hold Look, Talk or Use entries. */
  predicate TwoVerbs(s: seq<Action>) {
    exists i, j :: 0 <= i < j < |s| && IsVerb(s[i]) && IsVerb(s[j])
  }

  /** A single verb position makes the count one and is the last verb. */
  lemma {:induction false} OnlyVerbCounted(s: seq<Action>, i: int)
    requires OnlyVerbAt(s, i)
    ensures VerbCount(s) == 1 && LastVerb(s) == Some(s[i])
  {
    var n := |s| - 1;
    var p := s[..n];
    if i == n {
      assert forall j :: 0 <= j < |p| ==> p[j] == s[j] && j != i;
    } else {
      assert OnlyVerbAt(p, i) by {
        assert forall j :: 0 <= j < |p| ==> p[j] == s[j];
      }
      OnlyVerbCounted(p, i);
    }
  }

  /** A count of one comes from exactly one verb position. */
  lemma {:induction false} CountOneHasOnlyVerb(s: seq<Action>)
    requires VerbCount(s) == 1
    ensures exists i :: OnlyVerbAt(s, i)
  {
    var n := |s| - 1;
    var p := s[..n];
    assert forall j :: 0 <= j < |p| ==> p[j] == s[j];
    if IsVerb(s[n]) {
      assert OnlyVerbAt(s, n);
    } else {
      CountOneHasOnlyVerb(p);
      var i :| OnlyVerbAt(p, i);
      assert OnlyVerbAt(s, i);
    }
  }

  /** A count of two or more means two distinct verb positions, and back. */
  lemma {:induction false} CountAtLeastTwo(s: seq<Action>)
    ensures VerbCount(s) >= 2 <==> TwoVerbs(s)
  {
    if |s| > 0 {
      var n := |s| - 1;
      var p := s[..n];
      assert forall j :: 0 <= j < |p| ==> p[j] == s[j];
      CountAtLeastTwo(p);
      if VerbCount(s) >= 2 {
        if IsVerb(s[n]) {
          var i :| 0 <= i < |p| && IsVerb(p[i]);
          assert IsVerb(s[i]) && IsVerb(s[n]);
        } else {
          var i, j :| 0 <= i < j < |p| && IsVerb(p[i]) && IsVerb(p[j]);
          assert IsVerb(s[i]) && IsVerb(s[j]);
        }
      }
      if TwoVerbs(s) {
        var i, j :| 0 <= i < j < |s| && IsVerb(s[i]) && IsVerb(s[j]);
        if j == n {
          assert IsVerb(p[i]);
        } else {
          assert TwoVerbs(p) by { assert IsVerb(p[i]) && IsVerb(p[j]); }
        }
      }
    }
  }

  /** Exactly one Look, Talk or Use entry selects that entry's cursor. */
  lemma SingleVerbCursor(s: seq<Action>, i: int)
    requires OnlyVerbAt(s, i)
    ensures CursorFor(s) == VerbCursor(s[i])
  {
    OnlyVerbCounted(s, i);
  }

  /** A non-empty list gives the active cursor exactly when it has no Look,
      Talk or Use entry at all, or has two or more of them (duplicates
      counted at each position). */
  lemma ActiveCursor(s: seq<Action>)
    requires |s| > 0
    ensures CursorFor(s) == Active <==>
      (forall i :: 0 <= i < |s| ==> !IsVerb(s[i])) || TwoVerbs(s)
  {
    CountAtLeastTwo(s);
  }

  /** The cursor is one of eye, mouth and hand exactly when one position
      holds Look, Talk or Use. */
  lemma VerbCursorIffOnlyVerb(s: seq<Action>)
    ensures (CursorFor(s) != Passive && CursorFor(s) != Active) <==> exists i :: OnlyVerbAt(s, i)
  {
    if exists i :: OnlyVerbAt(s, i) {
      var i :| OnlyVerbAt(s, i);
      OnlyVerbCounted(s, i);
    }
    if CursorFor(s) != Passive && CursorFor(s) != Active {
      CountOneHasOnlyVerb(s);
    }
  }
}
