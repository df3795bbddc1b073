/**
 * The `ClassList` fallback of build/bindery.js:1243-1336: a token set kept as
 * the space-separated `className` string of an element that has no native
 * `classList`. Every operation reads the tokens from `className` again and
 * writes them back joined by single spaces.
 */
module ClassLists {
  import opened Common

  /** `s.split(" ")`: the runs between single spaces, empty runs included;
      the empty string gives one empty run. */
  function SplitSpace(s: string): (r: seq<string>)
    ensures |r| >= 1
  {
    if s == [] then [""]
    else if s[0] == ' ' then [""] + SplitSpace(s[1..])
    else
      var rest := SplitSpace(s[1..]);
      [[s[0]] + rest[0]] + rest[1..]
  }

  /** `filter(parts, isTruthy)` (lines 1326-1336): the empty strings dropped. */
  function Truthy(parts: seq<string>): (r: seq<string>)
    ensures forall k | 0 <= k < |r| :: r[k] != "" && r[k] in parts
  {
    if parts == [] then []
    else (if parts[0] == "" then [] else [parts[0]]) + Truthy(parts[1..])
  }

  /** `getTokens()` (lines 1306-1310). */
  function Tokens(className: string): seq<string>
  {
    Truthy(SplitSpace(className))
  }

  /** `list.join(" ")`. */
  function Join(list: seq<string>): string
  {
    if list == [] then ""
    else if |list| == 1 then list[0]
    else list[0] + " " + Join(list[1..])
  }

  /** A token the string form can carry: not empty and without a space. */
  predicate Clean(t: string)
  {
    t != "" && ' ' !in t
  }

  /** The runs of `s`, read from its first space-free run `w` on. */
  lemma {:induction false} SplitWord(w: string, rest: string)
    requires ' ' !in w
    ensures SplitSpace(w) == [w]
    ensures SplitSpace(w + " " + rest) == [w] + SplitSpace(rest)
  {
    if w != [] {
      SplitWord(w[1..], rest);
      assert (w + " " + rest)[1..] == w[1..] + " " + rest;
      assert [w[0]] + w[1..] == w;
    } else {
      assert w + " " + rest == [' '] + rest;
    }
  }

  lemma {:induction false} TruthyAppend(a: seq<string>, b: seq<string>)
    ensures Truthy(a + b) == Truthy(a) + Truthy(b)
  {
    if a != [] {
      assert (a + b)[1..] == a[1..] + b;
      TruthyAppend(a[1..], b);
    } else {
      assert a + b == b;
    }
  }

  /** Every token read from a class name is clean. */
  lemma {:induction false} TokensClean(s: string)
    ensures forall k | 0 <= k < |Tokens(s)| :: Clean(Tokens(s)[k])
  {
    SplitClean(s);
  }

  lemma {:induction false} SplitClean(s: string)
    ensures forall k | 0 <= k < |SplitSpace(s)| :: ' ' !in SplitSpace(s)[k]
  {
    if s != [] {
      SplitClean(s[1..]);
      if s[0] != ' ' {
        var rest := SplitSpace(s[1..]);
        assert ' ' !in rest[0];
        assert forall k | 1 <= k < |rest| :: ' ' !in rest[k];
      }
    }
  }

  /** Joining clean tokens and reading them back gives the same tokens. */
  lemma {:induction false} TokensJoin(list: seq<string>)
    requires forall k | 0 <= k < |list| :: Clean(list[k])
    ensures Tokens(Join(list)) == list
  {
    if |list| == 1 {
      assert Join(list) == list[0];
      SplitWord(list[0], "");
      assert Truthy([list[0]]) == [list[0]];
    } else if |list| > 1 {
      var head, tail := list[0], list[1..];
      assert Join(list) == head + " " + Join(tail);
      SplitWord(head, Join(tail));
      TokensJoin(tail);
      TruthyAppend([head], SplitSpace(Join(tail)));
      assert Truthy([head]) == [head];
      assert [head] + tail == list;
    }
  }

  /** Writing the tokens back normalises the string: its tokens do not change. */
  lemma TokensNormal(s: string)
    ensures Tokens(Join(Tokens(s))) == Tokens(s)
  {
    TokensClean(s);
    TokensJoin(Tokens(s));
  }

  /** The class name after `add(token)` (lines 1262-1269). */
  function Added(className: string, token: string): string
  {
    var list := Tokens(className);
    if IndexOf(list, token) > -1 then className else Join(list + [token])
  }

  /** The class name after `remove(token)` (lines 1271-1281). */
  function Removed(className: string, token: string): string
  {
    var list := Tokens(className);
    var index := IndexOf(list, token);
    if index == -1 then className else Join(RemoveAt(list, index))
  }

  /** Adding a clean token that is missing puts it last; adding one that is
      there changes nothing. */
  lemma AddedTokens(className: string, token: string)
    requires Clean(token)
    ensures token in Tokens(Added(className, token))
    ensures Tokens(Added(className, token))
         == if token in Tokens(className) then Tokens(className) else Tokens(className) + [token]
  {
    var list := Tokens(className);
    if token !in list {
      TokensClean(className);
      TokensJoin(list + [token]);
    }
  }

  /** Removing a token drops its first occurrence from the tokens and keeps
      the others in order; a missing token changes nothing. */
  lemma RemovedTokens(className: string, token: string)
    ensures Tokens(Removed(className, token))
         == if token in Tokens(className) then RemoveFirst(Tokens(className), token) else Tokens(className)
  {
    var list := Tokens(className);
    var index := IndexOf(list, token);
    if index != -1 {
      TokensClean(className);
      var r := RemoveAt(list, index);
      forall k | 0 <= k < |r| ensures Clean(r[k]) {
        if k < index { assert r[k] == list[k]; } else { assert r[k] == list[k + 1]; }
      }
      TokensJoin(r);
      assert Removed(className, token) == Join(r);
      assert token in list && RemoveFirst(list, token) == r;
    } else {
      assert Removed(className, token) == className && token !in list;
    }
  }

  /** Only the first occurrence goes: from "a a" the class "a" is removed
      once and is still there afterwards. */
  lemma RemoveFirstOnly()
    ensures Tokens("a a") == ["a", "a"]
    ensures Removed("a a", "a") == "a" && "a" in Tokens(Removed("a a", "a"))
  {
    SplitWord("a", "a");
    SplitWord("a", "");
    assert "a" + " " + "a" == "a a";
    TruthyAppend(["a"], ["a"]);
    assert Truthy(["a"]) == ["a"] + Truthy([]);
    assert RemoveAt(["a", "a"], 0) == ["a"];
  }

  /** A token with a space in it is written as two classes, so the list
      does not contain it after it was added. */
  lemma AddSpacedToken()
    ensures Added("", "a b") == "a b"
    ensures Tokens(Added("", "a b")) == ["a", "b"] && "a b" !in Tokens(Added("", "a b"))
  {
    assert Tokens("") == [];
    assert [] + ["a b"] == ["a b"];
    SplitWord("a", "b");
    SplitWord("b", "");
    assert "a" + " " + "b" == "a b";
    TruthyAppend(["a"], ["b"]);
    assert Truthy(["b"]) == ["b"] + Truthy([]);
  }

  /** The list object the fallback returns (lines 1250-1258), with the
      element whose `className` it edits. `slots` are the indexed entries
      `classList[i]` that `setTokens` writes. */
  /** `classList[i]` after `setTokens(list)` over the entries `slots`: the
      first `|list|` entries hold the list, and the entries above keep what
      they held. */
  function Written(slots: map<nat, string>, list: seq<string>): (r: map<nat, string>)
    ensures forall i | 0 <= i < |list| :: i in r && r[i] == list[i]
    ensures forall i | i in slots && i >= |list| :: i in r && r[i] == slots[i]
    ensures forall i | i in r :: i < |list| || i in slots
  {
    if list == [] then slots else Written(slots, list[..|list| - 1])[|list| - 1 := list[|list| - 1]]
  }

  class ClassList {
    /** `elem.className`. */
    var className: string
    /** `classList.length`. */
    var length: nat
    /** `classList[i]`. */
    var slots: map<nat, string>

    /** `ClassList(elem)` for an element without a native `classList`: the
        length starts at 0 and no entry is set, whatever `className` holds. */
    constructor (className: string)
      ensures this.className == className && length == 0 && slots == map[]
    {
      this.className, length, slots := className, 0, map[];
    }

    /** `contains(token)` (lines 1283-1285). */
    function Contains(token: string): (r: bool)
      reads this
      ensures r <==> token in Tokens(className)
    {
      IndexOf(Tokens(className), token) > -1
    }

    /** `toString()` (lines 1297-1299). */
    function ToString(): string
      reads this
    {
      className
    }

    /** `item(index)` (lines 1301-1304): the token at `index`, or `null`
        outside the list (every token is truthy). */
    function Item(index: int): (r: Option<string>)
      reads this
      ensures r.Some? <==> 0 <= index < |Tokens(className)|
      ensures r.Some? ==> r.value == Tokens(className)[index] && Clean(r.value)
    {
      TokensClean(className);
      if 0 <= index < |Tokens(className)| then Some(Tokens(className)[index]) else None
    }

    /** `setTokens(list)` (lines 1312-1323): the class name becomes the
        tokens joined by spaces, the length is set, and the entries below it
        are overwritten; entries at or above it keep what they held. */
    method SetTokens(list: seq<string>)
      modifies this
      ensures className == Join(list) && length == |list| && slots == Written(old(slots), list)
      ensures forall i | 0 <= i < |list| :: i in slots && slots[i] == list[i]
      ensures forall i | i in old(slots) && i >= |list| :: i in slots && slots[i] == old(slots)[i]
      ensures forall i | i in slots :: i < |list| || i in old(slots)
    {
      className := Join(list);
      length := |list|;
      for i := 0 to |list|
        invariant className == Join(list) && length == |list|
        invariant forall j | 0 <= j < i :: j in slots && slots[j] == list[j]
        invariant forall j | j in old(slots) && j >= i :: j in slots && slots[j] == old(slots)[j]
        invariant forall j | j in slots :: j < i || j in old(slots)
      {
        slots := slots[i := list[i]];
      }
      assert slots.Keys == Written(old(slots), list).Keys;
    }

    /** `add(token)` (lines 1262-1269). */
    method Add(token: string)
      modifies this
      ensures className == Added(old(className), token)
      ensures token in Tokens(old(className)) ==> length == old(length) && slots == old(slots)
      ensures token !in Tokens(old(className)) ==>
        length == |Tokens(old(className))| + 1 && slots == Written(old(slots), Tokens(old(className)) + [token])
    {
      var list := Tokens(className);
      if IndexOf(list, token) > -1 {
        return;
      }
      list := list + [token];
      SetTokens(list);
    }

    /** `remove(token)` (lines 1271-1281). */
    method Remove(token: string)
      modifies this
      ensures className == Removed(old(className), token)
      ensures token !in Tokens(old(className)) ==> length == old(length) && slots == old(slots)
      ensures token in Tokens(old(className)) ==>
        length + 1 == |Tokens(old(className))|
        && slots == Written(old(slots), RemoveAt(Tokens(old(className)), IndexOf(Tokens(old(className)), token)))
    {
      var list := Tokens(className);
      var index := IndexOf(list, token);
      if index == -1 {
        return;
      }
      list := RemoveAt(list, index);
      SetTokens(list);
    }

    /** `toggle(token)` (lines 1287-1295): a token that is there is removed
        and `false` returned; otherwise it is added and `true` returned. */
    method Toggle(token: string) returns (added: bool)
      modifies this
      ensures added <==> token !in Tokens(old(className))
      ensures className == if added then Added(old(className), token) else Removed(old(className), token)
      ensures added ==>
        length == |Tokens(old(className))| + 1 && slots == Written(old(slots), Tokens(old(className)) + [token])
      ensures !added ==>
        length + 1 == |Tokens(old(className))|
        && slots == Written(old(slots), RemoveAt(Tokens(old(className)), IndexOf(Tokens(old(className)), token)))
    {
      if Contains(token) {
        Remove(token);
        return false;
      }
      Add(token);
      return true;
    }
  }

  /** Toggling a clean token that is missing twice gives back the same
      tokens: the second toggle removes the occurrence the first one added. */
  lemma ToggleTwice(className: string, token: string)
    requires Clean(token) && token !in Tokens(className)
    ensures token in Tokens(Added(className, token))
    ensures Tokens(Removed(Added(className, token), token)) == Tokens(className)
  {
    var list := Tokens(className);
    AddedTokens(className, token);
    RemovedTokens(Added(className, token), token);
    assert IndexOf(list + [token], token) == |list| by {
      assert (list + [token])[..|list|] == list;
    }
    assert RemoveAt(list + [token], |list|) == list;
  }
}
