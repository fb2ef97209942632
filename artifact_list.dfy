/** The artifact list kept in the Streamlit session (`string_list`) and what
    one press of an artifact's button does to it (app.py:25-40): the list is
    searched for dict entries carrying the artifact's name; if there are any,
    all of them are dropped, otherwise a time-stamped copy of the artifact is
    appended. */
module ArtifactList {
  import opened Json

  /** `isinstance(it, dict) and it.get('name') == name`: a dict entry whose
      `name` equals the given one; a dict without a `name` reads as None. */
  predicate Named(it: Value, name: Value) {
    it.Dict? && Get(it.fields, "name", Null) == name
  }

  /** The `any(...)` of app.py:31. */
  predicate HasNamed(list: seq<Value>, name: Value) {
    exists i :: 0 <= i < |list| && Named(list[i], name)
  }

  /** The comprehension of app.py:33: every entry that is not a dict with
      that name, in order. */
  function WithoutNamed(list: seq<Value>, name: Value): (r: seq<Value>)
    ensures |r| <= |list|
    ensures !HasNamed(r, name)
    ensures forall e :: e in r <==> e in list && !Named(e, name)
  {
    if list == [] then []
    else
      var rest := WithoutNamed(list[1..], name);
      var r := (if Named(list[0], name) then [] else [list[0]]) + rest;
      assert forall e :: e in list <==> e == list[0] || e in list[1..] by {
        assert list == [list[0]] + list[1..];
      }
      r
  }

  /** Filtering distributes over concatenation: what survives of `a + b` is
      what survives of `a` followed by what survives of `b`, so the kept
      entries stay in their original relative order. */
  lemma {:induction false} WithoutNamedAppend(a: seq<Value>, b: seq<Value>, name: Value)
    ensures WithoutNamed(a + b, name) == WithoutNamed(a, name) + WithoutNamed(b, name)
  {
    if a == [] {
      assert a + b == b;
    } else {
      assert (a + b)[1..] == a[1..] + b;
      WithoutNamedAppend(a[1..], b, name);
    }
  }

  /** When no dict entry carries the name, filtering changes nothing. */
  lemma {:induction false} WithoutNamedKeeps(list: seq<Value>, name: Value)
    requires !HasNamed(list, name)
    ensures WithoutNamed(list, name) == list
  {
    if list != [] {
      assert !Named(list[0], name);
      assert !HasNamed(list[1..], name) by {
        forall i | 0 <= i < |list[1..]| ensures !Named(list[1..][i], name) {
          assert list[1..][i] == list[i + 1];
        }
      }
      WithoutNamedKeeps(list[1..], name);
    }
  }

  /** The filter removes exactly one entry per matching dict: its length is
      the original length less the number of matches. */
  function CountNamed(list: seq<Value>, name: Value): (n: nat)
    ensures n <= |list|
    ensures n == 0 <==> !HasNamed(list, name)
  {
    if list == [] then 0
    else
      var n := (if Named(list[0], name) then 1 else 0) + CountNamed(list[1..], name);
      assert HasNamed(list, name) <==> Named(list[0], name) || HasNamed(list[1..], name) by {
        if HasNamed(list[1..], name) {
          var i :| 0 <= i < |list[1..]| && Named(list[1..][i], name);
          assert list[1..][i] == list[i + 1];
        }
        if HasNamed(list, name) && !Named(list[0], name) {
          var i :| 0 <= i < |list| && Named(list[i], name);
          assert list[1..][i - 1] == list[i];
        }
      }
      n
  }

  lemma {:induction false} WithoutNamedLength(list: seq<Value>, name: Value)
    ensures |WithoutNamed(list, name)| == |list| - CountNamed(list, name)
  {
    if list != [] {
      WithoutNamedLength(list[1..], name);
    }
  }

  /** The copy of the artifact with `discovered_date` set (app.py:36-37). */
  function Stamped(artifact: map<string, Value>, now: string): map<string, Value> {
    artifact["discovered_date" := Text(now)]
  }

  /** The stamped copy agrees with the artifact on every other key, has the
      timestamp under `discovered_date`, and has no other new key. */
  lemma StampedFields(artifact: map<string, Value>, now: string)
    ensures var c := Stamped(artifact, now);
      && c.Keys == artifact.Keys + {"discovered_date"}
      && c["discovered_date"] == Text(now)
      && forall k :: k in artifact && k != "discovered_date" ==> c[k] == artifact[k]
  {
  }

  /** The list after one toggle of `artifact` at time `now`. Toggling flips
      membership: afterwards a dict entry carries the artifact's name exactly
      when none did before. */
  function Toggled(list: seq<Value>, artifact: map<string, Value>, now: string): (r: seq<Value>)
    requires "name" in artifact
    ensures HasNamed(r, artifact["name"]) <==> !HasNamed(list, artifact["name"])
  {
    var name := artifact["name"];
    if HasNamed(list, name) then WithoutNamed(list, name)
    else
      var r := list + [Dict(Stamped(artifact, now))];
      assert Named(r[|list|], name);
      r
  }

  /** Removal is remove-all: when some dict entries carry the name, none is
      left, the list shrinks by the number of them, and every other entry
      (non-dict entries included) is kept. */
  lemma ToggleRemovesAll(list: seq<Value>, artifact: map<string, Value>, now: string)
    requires "name" in artifact && HasNamed(list, artifact["name"])
    ensures var r := Toggled(list, artifact, now);
      && !HasNamed(r, artifact["name"])
      && |r| == |list| - CountNamed(list, artifact["name"]) < |list|
      && forall e :: e in r <==> e in list && !Named(e, artifact["name"])
  {
    WithoutNamedLength(list, artifact["name"]);
  }

  /** Addition appends exactly one entry: the earlier entries are untouched and
      the new last entry is the artifact's fields plus the timestamp. */
  lemma ToggleAppends(list: seq<Value>, artifact: map<string, Value>, now: string)
    requires "name" in artifact && !HasNamed(list, artifact["name"])
    ensures var r := Toggled(list, artifact, now);
      && |r| == |list| + 1
      && r[..|list|] == list
      && r[|list|] == Dict(artifact["discovered_date" := Text(now)])
  {
  }

  /** Pressing the same button twice from a list without that artifact gives
      the list back, whatever the two timestamps. */
  lemma ToggleTwice(list: seq<Value>, artifact: map<string, Value>, now: string, later: string)
    requires "name" in artifact && !HasNamed(list, artifact["name"])
    ensures Toggled(Toggled(list, artifact, now), artifact, later) == list
  {
    var name := artifact["name"];
    var added := Dict(Stamped(artifact, now));
    assert Toggled(list, artifact, now) == list + [added];
    WithoutNamedAppend(list, [added], name);
    WithoutNamedKeeps(list, name);
    assert WithoutNamed([added], name) == [];
  }

  /** Two dict entries named "A" and a third artifact named "A": one toggle
      drops both and adds nothing. */
  lemma ToggleDropsBothDuplicates(now: string)
    ensures var a1 := map["name" := Text("A"), "description" := Text("1")];
      var a2 := map["name" := Text("A"), "description" := Text("2")];
      var a3 := map["name" := Text("A"), "description" := Text("3")];
      Toggled([Dict(a1), Dict(a2)], a3, now) == []
  {
    var a1 := map["name" := Text("A"), "description" := Text("1")];
    var a2 := map["name" := Text("A"), "description" := Text("2")];
    var a3 := map["name" := Text("A"), "description" := Text("3")];
    var l := [Dict(a1), Dict(a2)];
    assert l[0] == Dict(a1) && Named(l[0], Text("A"));
    assert Named(Dict(a2), Text("A"));
    assert l[1..] == [Dict(a2)];
  }
}
