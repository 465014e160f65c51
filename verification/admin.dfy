/** The admin panel's edits of the option list, which change the list in
    place: append a new option, pop one, and replace rows whose inputs
    changed. Saving the list after each edit is file I/O and not modelled. */
module Admin {
  import opened Restaurants

  /** Python's str.isspace for one character: the characters str.strip()
      removes from both ends. The ASCII blanks are among them; letters and
      digits never are. */
  predicate IsSpace(c: char): (b: bool)
    ensures c == ' ' || c == '\t' || c == '\n' || c == '\r' ==> b
    ensures 'a' <= c <= 'z' || 'A' <= c <= 'Z' || '0' <= c <= '9' ==> !b
  {
    || c == ' '
    || '\t' <= c <= '\r'
    || '\U{1c}' <= c <= '\U{1f}'
    || c == '\U{85}' || c == '\U{a0}' || c == '\U{1680}'
    || '\U{2000}' <= c <= '\U{200a}'
    || c == '\U{2028}' || c == '\U{2029}' || c == '\U{202f}' || c == '\U{205f}' || c == '\U{3000}'
  }

  /** Length of the run of whitespace at the start of s. */
  function LeadingSpaces(s: string): (k: nat)
    ensures k <= |s|
    ensures forall i :: 0 <= i < k ==> IsSpace(s[i])
    ensures k < |s| ==> !IsSpace(s[k])
  {
    if s == [] || !IsSpace(s[0]) then 0 else 1 + LeadingSpaces(s[1..])
  }

  /** Length of the run of whitespace at the end of s. */
  function TrailingSpaces(s: string): (k: nat)
    ensures k <= |s|
    ensures forall i :: |s| - k <= i < |s| ==> IsSpace(s[i])
    ensures k < |s| ==> !IsSpace(s[|s| - 1 - k])
  {
    if s == [] || !IsSpace(s[|s| - 1]) then 0 else 1 + TrailingSpaces(s[..|s| - 1])
  }

  /** str.strip(): s without its leading and trailing whitespace. The
      result is empty exactly when s is blank; otherwise it begins and ends
      with a non-space and is what remains of s after a run of whitespace
      is cut from each end. */
  function Strip(s: string): (r: string)
    ensures r == [] <==> forall i :: 0 <= i < |s| ==> IsSpace(s[i])
    ensures r != [] ==> !IsSpace(r[0]) && !IsSpace(r[|r| - 1])
    ensures LeadingSpaces(s) + |r| <= |s|
    ensures r == s[LeadingSpaces(s)..LeadingSpaces(s) + |r|]
    ensures forall i :: LeadingSpaces(s) + |r| <= i < |s| ==> IsSpace(s[i])
  {
    var t := s[LeadingSpaces(s)..];
    t[..|t| - TrailingSpaces(t)]
  }

  /** Stripping twice is stripping once. */
  lemma StripIdempotent(s: string)
    ensures Strip(Strip(s)) == Strip(s)
  {
    var r := Strip(s);
    if r != [] {
      assert LeadingSpaces(r) == 0;
      assert TrailingSpaces(r) == 0;
      assert r[0..][..|r|] == r;
    }
  }

  /** The list after "Add Restaurant": the stripped name and its weight are
      appended, unless the name is blank, which leaves the list unchanged. */
  function Added(rs: seq<Restaurant>, name: string, prob: nat): (r: seq<Restaurant>)
    ensures Strip(name) == [] ==> r == rs
    ensures Strip(name) != [] ==>
      |r| == |rs| + 1 && r[..|rs|] == rs && r[|rs|] == Restaurant(Strip(name), prob)
  {
    if Strip(name) == [] then rs else rs + [Restaurant(Strip(name), prob)]
  }

  /** The list after pop(idx): entry idx is gone and the later entries move
      down by one. */
  function Removed(rs: seq<Restaurant>, idx: nat): (r: seq<Restaurant>)
    requires idx < |rs|
    ensures |r| == |rs| - 1
    ensures forall j :: 0 <= j < idx ==> r[j] == rs[j]
    ensures forall j :: idx <= j < |r| ==> r[j] == rs[j + 1]
  {
    rs[..idx] + rs[idx + 1..]
  }

  /** Popping the entry just appended gives back the original list. */
  lemma PopUndoesAdd(rs: seq<Restaurant>, name: string, prob: nat)
    requires Strip(name) != []
    ensures Removed(Added(rs, name, prob), |rs|) == rs
  {
    var r := Added(rs, name, prob);
    assert r[..|rs|] == rs;
    assert r[|rs| + 1..] == [];
  }

  /** Putting the popped entry back at its index gives back the original
      list: pop loses nothing but that entry. */
  lemma PopThenReinsert(rs: seq<Restaurant>, idx: nat)
    requires idx < |rs|
    ensures Removed(rs, idx)[..idx] + [rs[idx]] + Removed(rs, idx)[idx..] == rs
  {
    var r := Removed(rs, idx);
    assert r[..idx] == rs[..idx];
    assert r[idx..] == rs[idx + 1..];
    assert rs[..idx] + [rs[idx]] + rs[idx + 1..] == rs;
  }

  /** The list after one pass over the edit rows: rows before a clicked
      delete button take their inputs, the clicked row is popped and the
      pass stops there; with no click every row takes its inputs. */
  function EditedRows(rs: seq<Restaurant>, rows: seq<Restaurant>, deleteAt: Option<nat>): (r: seq<Restaurant>)
    requires |rows| == |rs|
    ensures (deleteAt.None? || deleteAt.value >= |rs|) ==> r == rows
    ensures deleteAt.Some? && deleteAt.value < |rs| ==>
      |r| == |rs| - 1 &&
      (forall j :: 0 <= j < deleteAt.value ==> r[j] == rows[j]) &&
      (forall j :: deleteAt.value <= j < |r| ==> r[j] == rs[j + 1])
  {
    match deleteAt
    case Some(d) => if d < |rs| then rows[..d] + rs[d + 1..] else rows
    case None => rows
  }

  /** One step of the edit pass: with rows before idx already taken from
      the inputs, replacing row idx extends the edited part by one, and
      popping row idx drops it. */
  lemma EditStep(rows: seq<Restaurant>, olds: seq<Restaurant>, idx: nat)
    requires |rows| == |olds| && idx < |rows|
    ensures (rows[..idx] + olds[idx..])[idx := rows[idx]] == rows[..idx + 1] + olds[idx + 1..]
    ensures Removed(rows[..idx] + olds[idx..], idx) == rows[..idx] + olds[idx + 1..]
  {
    var cur := rows[..idx] + olds[idx..];
    assert cur[..idx] == rows[..idx];
    assert cur[idx + 1..] == olds[idx + 1..];
    assert rows[..idx + 1] == rows[..idx] + [rows[idx]];
  }

  /** Edits made through the admin inputs keep every weight within the
      inputs' bounds 1..100. */
  lemma EditsKeepInputBounds(rs: seq<Restaurant>, name: string, prob: nat, idx: nat, e: Restaurant)
    requires InputBounds(rs) && 1 <= prob <= 100 && 1 <= e.probability <= 100
    ensures InputBounds(Added(rs, name, prob))
    ensures idx < |rs| ==> InputBounds(Removed(rs, idx)) && InputBounds(rs[idx := e])
  {
  }

  /** The stored option list, as the admin panel mutates it. */
  class RestaurantList {
    var entries: seq<Restaurant>

    /** The list as loaded at the start of a run. */
    constructor (loaded: seq<Restaurant>)
      ensures entries == loaded
    {
      entries := loaded;
    }

    /** "Add Restaurant": append the stripped name with its weight, or
        report a blank name and change nothing. */
    method Add(name: string, prob: nat) returns (added: bool)
      modifies this
      ensures added <==> Strip(name) != []
      ensures entries == Added(old(entries), name, prob)
    {
      if Strip(name) != [] {
        entries := entries + [Restaurant(Strip(name), prob)];
        added := true;
      } else {
        added := false;
      }
    }

    /** The delete button of row idx: pop(idx). */
    method Delete(idx: nat)
      requires idx < |entries|
      modifies this
      ensures entries == Removed(old(entries), idx)
    {
      entries := entries[..idx] + entries[idx + 1..];
    }

    /** The update of row idx: when the inputs differ from the stored entry,
        the entry is replaced by them as given (the name is neither stripped
        nor checked). */
    method Update(idx: nat, newName: string, newProb: nat) returns (changed: bool)
      requires idx < |entries|
      modifies this
      ensures changed <==> old(entries[idx]) != Restaurant(newName, newProb)
      ensures entries == old(entries)[idx := Restaurant(newName, newProb)]
    {
      var current := entries[idx];
      changed := newName != current.name || newProb != current.probability;
      if changed {
        entries := entries[idx := Restaurant(newName, newProb)];
      }
    }

    /** One pass over the edit rows, whose inputs are `rows`: a clicked
        delete button pops its row and ends the run; otherwise the row is
        updated from its inputs. */
    method EditRows(rows: seq<Restaurant>, deleteAt: Option<nat>)
      requires |rows| == |entries|
      modifies this
      ensures entries == EditedRows(old(entries), rows, deleteAt)
    {
      ghost var olds := entries;
      var idx := 0;
      while idx < |rows|
        invariant 0 <= idx <= |rows| == |olds| == |entries|
        invariant entries == rows[..idx] + olds[idx..]
        invariant !(deleteAt.Some? && deleteAt.value < idx)
      {
        EditStep(rows, olds, idx);
        if deleteAt == Some(idx) {
          Delete(idx);
          assert entries == EditedRows(olds, rows, deleteAt);
          return;
        }
        var changed := Update(idx, rows[idx].name, rows[idx].probability);
        idx := idx + 1;
      }
      assert rows[..idx] + olds[idx..] == rows;
    }
  }
}
