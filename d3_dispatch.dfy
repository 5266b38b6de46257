/**
 * d3-dispatch as vendored in the bundle: a registry from event types to the
 * ordered list of named callbacks registered for them.
 *
 * Callbacks are values of a type parameter `H`; `None` stands for the `null`
 * callback that removes a registration. A thrown `Error` is a `Failure`.
 */
module D3Dispatch {
  import opened Wrappers

  /** One registration: the callback name (the part after the dot) and the callback. */
  datatype Entry<H> = Entry(name: string, value: H)

  /** The two errors the registry throws. */
  datatype Error = IllegalType(illegal: string) | UnknownType(unknown: string)

  /** A parsed `type.name` pair; `event` is the part before the first dot. */
  datatype Typename = Typename(event: string, name: string)

  type Registry<H> = map<string, seq<Entry<H>>>

  // ---------------------------------------------------------------------------
  // dispatch(...types)

  /** The index of the first type that is empty or repeats an earlier one, or the length when none does. */
  function FirstIllegal(types: seq<string>): (k: nat)
    ensures k <= |types|
    ensures forall j :: 0 <= j < k ==> types[j] != "" && types[j] !in types[..j]
    ensures k < |types| ==> types[k] == "" || types[k] in types[..k]
  {
    if types == [] then 0
    else
      var k := FirstIllegal(types[..|types| - 1]);
      if k < |types| - 1 then k
      else if types[|types| - 1] == "" || types[|types| - 1] in types[..|types| - 1] then |types| - 1
      else |types|
  }

  /** The types are legal exactly when none is empty and no two are equal. */
  lemma IllegalIff(types: seq<string>)
    ensures FirstIllegal(types) < |types| <==>
      ("" in types || exists i, j :: 0 <= i < j < |types| && types[i] == types[j])
  {
    var k := FirstIllegal(types);
    if k < |types| && types[k] != "" {
      var i :| 0 <= i < k && types[..k][i] == types[k];
      assert types[i] == types[k];
    }
    if "" in types {
      var i :| 0 <= i < |types| && types[i] == "";
      assert i >= k;
    }
    if exists i, j :: 0 <= i < j < |types| && types[i] == types[j] {
      var i, j :| 0 <= i < j < |types| && types[i] == types[j];
      assert types[..j][i] == types[i];
    }
  }

  /**
   * dispatch(...types): every type must be non-empty and new, otherwise
   * "illegal type" is thrown for the first offender; each type starts with no
   * callbacks.
   */
  method NewDispatch<H>(types: seq<string>) returns (r: Result<Dispatch<H>, Error>)
    ensures FirstIllegal(types) < |types| <==> r.Failure?
    ensures r.Failure? ==> r.error == IllegalType(types[FirstIllegal(types)])
    ensures r.Success? ==> fresh(r.value) && r.value.Valid()
    ensures r.Success? ==> forall t :: t in r.value.registry <==> t in types
    ensures r.Success? ==> forall t :: t in r.value.registry ==> r.value.registry[t] == []
  {
    var registry: Registry<H> := map[];
    var i := 0;
    while i < |types|
      invariant 0 <= i <= |types|
      invariant FirstIllegal(types[..i]) == i
      invariant forall t :: t in registry <==> t in types[..i]
      invariant forall t :: t in registry ==> registry[t] == []
    {
      var t := types[i];
      FirstIllegalSnoc(types, i);
      if t == "" || t in registry {
        FirstIllegalPrefix(types, i + 1);
        return Failure(IllegalType(t));
      }
      registry := registry[t := []];
      i := i + 1;
    }
    assert types[..i] == types;
    var d := new Dispatch(registry);
    return Success(d);
  }

  /** An offender within a prefix is the first offender of the whole list. */
  lemma {:induction false} FirstIllegalPrefix(types: seq<string>, n: nat)
    requires n <= |types| && FirstIllegal(types[..n]) < n
    ensures FirstIllegal(types) == FirstIllegal(types[..n])
  {
    if n < |types| {
      var init := types[..|types| - 1];
      assert init[..n] == types[..n];
      FirstIllegalPrefix(init, n);
    } else {
      assert types[..n] == types;
    }
  }

  /** Extending the checked prefix by one type. */
  lemma FirstIllegalSnoc(types: seq<string>, i: nat)
    requires i < |types|
    ensures types[..i + 1] == types[..i] + [types[i]]
    ensures FirstIllegal(types[..i + 1]) ==
      if FirstIllegal(types[..i]) < i then FirstIllegal(types[..i])
      else if types[i] == "" || types[i] in types[..i] then i
      else i + 1
  {
    assert types[..i + 1][..i] == types[..i];
  }

  // ---------------------------------------------------------------------------
  // parseTypenames

  /**
   * The characters the `trim` and `\s+` of the parser treat as white space:
   * the white space and line terminators of ECMAScript (section 12.2 and 12.3
   * of ECMA-262), that is tab, vertical tab, form feed, space, no-break space,
   * the byte order mark, the other space separators of Unicode, and the four
   * line terminators.
   */
  predicate IsSpace(c: char)
  {
    || c == '\t' || c == '\U{000B}' || c == '\U{000C}' || c == ' ' || c == '\U{00A0}' || c == '\U{FEFF}'
    || c == '\U{1680}' || ('\U{2000}' <= c <= '\U{200A}') || c == '\U{202F}' || c == '\U{205F}' || c == '\U{3000}'
    || c == '\n' || c == '\r' || c == '\U{2028}' || c == '\U{2029}'
  }

  /** A word: non-empty and free of white space. */
  predicate IsWord(w: string)
  {
    w != [] && forall i :: 0 <= i < |w| ==> !IsSpace(w[i])
  }

  /** The index of the first white-space character of `s`, or its length. */
  function SpaceIndex(s: string): (k: nat)
    ensures k <= |s| && (k < |s| ==> IsSpace(s[k]))
    ensures forall i :: 0 <= i < k ==> !IsSpace(s[i])
  {
    if s == [] || IsSpace(s[0]) then 0 else 1 + SpaceIndex(s[1..])
  }

  /** `s` without its leading white space. */
  function TrimStart(s: string): (r: string)
    ensures |r| <= |s| && r == s[|s| - |r|..]
    ensures r == [] || !IsSpace(r[0])
    ensures forall i :: 0 <= i < |s| - |r| ==> IsSpace(s[i])
  {
    if s != [] && IsSpace(s[0]) then
      var r := TrimStart(s[1..]);
      assert r == s[|s| - |r|..] by {
        assert s[1..][|s| - 1 - |r|..] == s[|s| - |r|..];
      }
      assert forall i :: 1 <= i < |s| ==> s[i] == s[1..][i - 1];
      r
    else
      s
  }

  /**
   * `typenames.trim().split(/^|\s+/)`: the maximal runs of non-space
   * characters, in order. A string of white space only gives no words at all
   * (the split of an empty string by a pattern that matches it is empty).
   */
  function Words(s: string): (ws: seq<string>)
    decreases |s|
  {
    var t := TrimStart(s);
    if t == [] then []
    else
      var k := SpaceIndex(t);
      assert 0 < k;
      [t[..k]] + Words(t[k..])
  }

  /** An em space separates two type names, as `\s` does. */
  lemma EmSpaceSeparates(a: char, b: char)
    requires !IsSpace(a) && !IsSpace(b)
    ensures Words([a, '\U{2003}', b]) == [[a], [b]]
  {
    TwoLetters(a, '\U{2003}', b);
  }

  /** Two letters with white space between them are two words. */
  lemma TwoLetters(a: char, c: char, b: char)
    requires !IsSpace(a) && IsSpace(c) && !IsSpace(b)
    ensures Words([a, c, b]) == [[a], [b]]
  {
    assert [a, c, b] == [a, c] + [b];
    LetterThenSpace(a, c, [b]);
    SpaceSkipped(c, [b]);
    SingleLetter(b);
  }

  /** White space in front of the text is skipped. */
  lemma SpaceSkipped(c: char, w: string)
    requires IsSpace(c)
    ensures Words([c] + w) == Words(w)
  {
    assert ([c] + w)[1..] == w;
  }

  /** A letter followed by white space is a word of its own. */
  lemma LetterThenSpace(a: char, c: char, w: string)
    requires !IsSpace(a) && IsSpace(c)
    ensures Words([a, c] + w) == [[a]] + Words([c] + w)
  {
    var s := [a, c] + w;
    assert TrimStart(s) == s;
    assert s[1..] == [c] + w;
    assert SpaceIndex(s[1..]) == 0;
    assert SpaceIndex(s) == 1;
    assert s[..1] == [a];
  }

  /** A single letter is a single word. */
  lemma SingleLetter(a: char)
    requires !IsSpace(a)
    ensures Words([a]) == [[a]]
  {
    assert [a][1..] == [];
    assert TrimStart([a]) == [a];
    assert SpaceIndex([a]) == 1;
    assert [a][..1] == [a];
    assert TrimStart([]) == [];
  }

  /** Every word is non-empty and free of white space. */
  lemma {:induction false} WordsAreWords(s: string)
    ensures forall k :: 0 <= k < |Words(s)| ==> IsWord(Words(s)[k])
    decreases |s|
  {
    var t := TrimStart(s);
    if t != [] {
      var k := SpaceIndex(t);
      FirstWord(t);
      WordsAreWords(t[k..]);
      AllWords(t[..k], Words(t[k..]));
    }
  }

  /** The run before the first space of a string that starts with a non-space is a word. */
  lemma FirstWord(t: string)
    requires t != [] && !IsSpace(t[0])
    ensures IsWord(t[..SpaceIndex(t)])
  {
    var w := t[..SpaceIndex(t)];
    forall i | 0 <= i < |w|
      ensures !IsSpace(w[i])
    {
      assert w[i] == t[i];
    }
  }

  /** A word followed by words is a list of words. */
  lemma AllWords(w: string, rest: seq<string>)
    requires IsWord(w) && forall k :: 0 <= k < |rest| ==> IsWord(rest[k])
    ensures forall k :: 0 <= k < |[w] + rest| ==> IsWord(([w] + rest)[k])
  {
    forall k | 0 <= k < |[w] + rest|
      ensures IsWord(([w] + rest)[k])
    {
      if k > 0 {
        assert ([w] + rest)[k] == rest[k - 1];
      }
    }
  }

  /** There are no words exactly when the string is all white space. */
  lemma {:induction false} WordsEmpty(s: string)
    ensures Words(s) == [] <==> forall i :: 0 <= i < |s| ==> IsSpace(s[i])
  {
    var t := TrimStart(s);
    if t != [] {
      assert !IsSpace(s[|s| - |t|]);
    }
  }

  /** The index of the first `c` in `s` (`indexOf`), or the length when there is none. */
  function IndexOf(s: string, c: char): (i: nat)
    ensures i <= |s| && c !in s[..i] && (i < |s| ==> s[i] == c)
  {
    if s == [] then 0
    else if s[0] == c then 0
    else assert s[1..][..IndexOf(s[1..], c)] == s[..IndexOf(s[1..], c) + 1][1..]; 1 + IndexOf(s[1..], c)
  }

  /** One word split at its first dot into the type and the callback name. */
  function SplitName(t: string): (r: Typename)
    ensures '.' !in r.event
    ensures '.' in t ==> r.event + "." + r.name == t
    ensures '.' !in t ==> r == Typename(t, "")
  {
    var i := IndexOf(t, '.');
    if i < |t| then
      assert t == t[..i] + "." + t[i + 1..];
      Typename(t[..i], t[i + 1..])
    else
      assert t[..i] == t;
      Typename(t, "")
  }

  /** The typenames of a list of words; the first non-empty type not in `types` is an "unknown type". */
  function ParseAll(ws: seq<string>, types: set<string>): (r: Result<seq<Typename>, Error>)
    ensures r.Success? <==> forall k :: 0 <= k < |ws| ==> Known(SplitName(ws[k]), types)
    ensures r.Success? ==> |r.value| == |ws| && forall k :: 0 <= k < |ws| ==> r.value[k] == SplitName(ws[k])
    ensures r.Failure? ==> r.error.UnknownType? && r.error.unknown != "" && r.error.unknown !in types
  {
    if ws == [] then Success([])
    else
      var t := SplitName(ws[0]);
      if !Known(t, types) then Failure(UnknownType(t.event))
      else
        var rest := ParseAll(ws[1..], types);
        if rest.Failure? then Failure(rest.error) else Success([t] + rest.value)
  }

  /** A typename whose type is empty or registered. */
  predicate Known(t: Typename, types: set<string>)
  {
    t.event == "" || t.event in types
  }

  /** parseTypenames(typenames, types). */
  function ParseTypenames(typenames: string, types: set<string>): Result<seq<Typename>, Error>
  {
    ParseAll(Words(typenames), types)
  }

  /** A successful parse names only registered types (or none). */
  lemma ParsedAllKnown(typenames: string, types: set<string>)
    requires ParseTypenames(typenames, types).Success?
    ensures AllKnown(types, ParseTypenames(typenames, types).value)
  {
    var ws := Words(typenames);
    var ts := ParseAll(ws, types).value;
    forall k | 0 <= k < |ts|
      ensures Known(ts[k], types)
    {
      assert ts[k] == SplitName(ws[k]);
    }
  }

  // ---------------------------------------------------------------------------
  // get and set on one list of callbacks

  /** The index of the first entry called `name`, or the length when there is none. */
  function FirstNamed<H>(entries: seq<Entry<H>>, name: string): (i: nat)
    ensures i <= |entries| && (i < |entries| ==> entries[i].name == name)
    ensures forall j :: 0 <= j < i ==> entries[j].name != name
  {
    if entries == [] || entries[0].name == name then 0 else 1 + FirstNamed(entries[1..], name)
  }

  /** No two entries share a name. */
  predicate UniqueNames<H>(entries: seq<Entry<H>>)
  {
    forall i, j :: 0 <= i < j < |entries| ==> entries[i].name != entries[j].name
  }

  /** What `get` returns: the callback of the first entry called `name`. */
  function Lookup<H>(entries: seq<Entry<H>>, name: string): Option<H>
  {
    if entries == [] then None
    else if entries[0].name == name then Some(entries[0].value)
    else Lookup(entries[1..], name)
  }

  /** The entries without the first one called `name` (the splice of `set`). */
  function RemoveFirst<H>(entries: seq<Entry<H>>, name: string): seq<Entry<H>>
  {
    var i := FirstNamed(entries, name);
    if i < |entries| then entries[..i] + entries[i + 1..] else entries
  }

  /** What `set` returns: the first entry called `name` removed, then the new one appended. */
  function Updated<H>(entries: seq<Entry<H>>, name: string, callback: Option<H>): seq<Entry<H>>
  {
    RemoveFirst(entries, name) + (if callback.Some? then [Entry(name, callback.value)] else [])
  }

  /** The entries with any other name, in order. */
  function Without<H>(entries: seq<Entry<H>>, name: string): (r: seq<Entry<H>>)
    ensures forall k :: 0 <= k < |r| ==> r[k].name != name && r[k] in entries
  {
    if entries == [] then []
    else if entries[0].name == name then Without(entries[1..], name)
    else [entries[0]] + Without(entries[1..], name)
  }

  /** get(type, name). */
  method Get<H>(entries: seq<Entry<H>>, name: string) returns (r: Option<H>)
    ensures r == Lookup(entries, name)
  {
    var i := 0;
    while i < |entries|
      invariant 0 <= i <= |entries| && Lookup(entries[i..], name) == Lookup(entries, name)
    {
      if entries[i].name == name {
        return Some(entries[i].value);
      }
      assert entries[i..][1..] == entries[i + 1..];
      i := i + 1;
    }
    return None;
  }

  /** set(type, name, callback). */
  method Set<H>(entries: seq<Entry<H>>, name: string, callback: Option<H>) returns (r: seq<Entry<H>>)
    ensures r == Updated(entries, name, callback)
  {
    r := entries;
    var i := 0;
    while i < |r|
      invariant 0 <= i <= FirstNamed(entries, name) && r == entries
    {
      if r[i].name == name {
        r := r[..i] + r[i + 1..];
        break;
      }
      i := i + 1;
    }
    if callback.Some? {
      r := r + [Entry(name, callback.value)];
    }
  }

  /** Past the first entry of a list with unique names, names stay unique and differ from the first. */
  lemma UniqueTail<H>(entries: seq<Entry<H>>)
    requires UniqueNames(entries) && entries != []
    ensures UniqueNames(entries[1..])
    ensures forall k :: 0 <= k < |entries| - 1 ==> entries[1..][k].name != entries[0].name
  {
    forall k | 0 <= k < |entries| - 1
      ensures entries[1..][k].name != entries[0].name
    {
      assert entries[1..][k] == entries[k + 1];
    }
  }

  /** Past a first entry with another name, the splice happens in the rest. */
  lemma RemoveFirstCons<H>(entries: seq<Entry<H>>, name: string)
    requires entries != [] && entries[0].name != name
    ensures RemoveFirst(entries, name) == [entries[0]] + RemoveFirst(entries[1..], name)
  {
    var tail := entries[1..];
    var i := FirstNamed(tail, name);
    assert FirstNamed(entries, name) == i + 1;
    if i < |tail| {
      calc {
        RemoveFirst(entries, name);
        entries[..i + 1] + entries[i + 2..];
        { assert entries[..i + 1] == [entries[0]] + tail[..i]; assert entries[i + 2..] == tail[i + 1..]; }
        ([entries[0]] + tail[..i]) + tail[i + 1..];
        [entries[0]] + (tail[..i] + tail[i + 1..]);
      }
    } else {
      assert entries == [entries[0]] + tail;
    }
  }

  /** Without a repeated name, removing the first entry called `name` removes them all. */
  lemma {:induction false} RemoveFirstIsWithout<H>(entries: seq<Entry<H>>, name: string)
    requires UniqueNames(entries)
    ensures RemoveFirst(entries, name) == Without(entries, name)
  {
    if entries != [] {
      var tail := entries[1..];
      UniqueTail(entries);
      if entries[0].name == name {
        WithoutAbsent(tail, name);
        assert entries[..0] + entries[1..] == tail;
      } else {
        RemoveFirstIsWithout(tail, name);
        RemoveFirstCons(entries, name);
      }
    }
  }

  /** Filtering out a name that does not occur changes nothing. */
  lemma {:induction false} WithoutAbsent<H>(entries: seq<Entry<H>>, name: string)
    requires forall k :: 0 <= k < |entries| ==> entries[k].name != name
    ensures Without(entries, name) == entries
  {
    if entries != [] {
      assert forall k :: 0 <= k < |entries| - 1 ==> entries[1..][k] == entries[k + 1];
      WithoutAbsent(entries[1..], name);
    }
  }

  /** Filtering keeps unique names unique. */
  lemma {:induction false} WithoutUnique<H>(entries: seq<Entry<H>>, name: string)
    requires UniqueNames(entries)
    ensures UniqueNames(Without(entries, name))
  {
    if entries != [] {
      UniqueTail(entries);
      WithoutUnique(entries[1..], name);
      var w := Without(entries[1..], name);
      if entries[0].name != name {
        forall k | 0 <= k < |w|
          ensures w[k].name != entries[0].name
        {
          var j :| 0 <= j < |entries[1..]| && entries[1..][j] == w[k];
        }
        var r := [entries[0]] + w;
        forall i, j | 0 <= i < j < |r|
          ensures r[i].name != r[j].name
        {
          assert r[j] == w[j - 1];
          if i > 0 {
            assert r[i] == w[i - 1];
          }
        }
      }
    }
  }

  /** Filtering out one name does not change what `get` finds for another. */
  lemma {:induction false} WithoutLookup<H>(entries: seq<Entry<H>>, name: string, n: string)
    requires n != name
    ensures Lookup(Without(entries, name), n) == Lookup(entries, n)
  {
    if entries != [] {
      WithoutLookup(entries[1..], name, n);
      if entries[0].name != name {
        assert ([entries[0]] + Without(entries[1..], name))[1..] == Without(entries[1..], name);
      }
    }
  }

  /** `get` finds nothing for a name no entry has. */
  lemma {:induction false} LookupAbsent<H>(entries: seq<Entry<H>>, n: string)
    requires forall k :: 0 <= k < |entries| ==> entries[k].name != n
    ensures Lookup(entries, n) == None
  {
    if entries != [] {
      assert forall k :: 0 <= k < |entries| - 1 ==> entries[1..][k] == entries[k + 1];
      LookupAbsent(entries[1..], n);
    }
  }

  /** An appended entry is found only when no earlier entry has the name. */
  lemma {:induction false} LookupAppend<H>(entries: seq<Entry<H>>, e: Entry<H>, n: string)
    ensures Lookup(entries + [e], n) ==
      if Lookup(entries, n).Some? then Lookup(entries, n) else if e.name == n then Some(e.value) else None
  {
    if entries == [] {
      assert [] + [e] == [e];
    } else {
      assert (entries + [e])[1..] == entries[1..] + [e];
      LookupAppend(entries[1..], e, n);
    }
  }

  /**
   * `set` keeps names unique; afterwards the name has exactly the new callback
   * (or none), it sits last, and every other name keeps its callback and its
   * relative order.
   */
  lemma UpdatedSpec<H>(entries: seq<Entry<H>>, name: string, callback: Option<H>)
    requires UniqueNames(entries)
    ensures Updated(entries, name, callback)
      == Without(entries, name) + (if callback.Some? then [Entry(name, callback.value)] else [])
    ensures UniqueNames(Updated(entries, name, callback))
    ensures Lookup(Updated(entries, name, callback), name) == callback
    ensures forall n :: n != name ==> Lookup(Updated(entries, name, callback), n) == Lookup(entries, n)
  {
    RemoveFirstIsWithout(entries, name);
    WithoutUnique(entries, name);
    var w := Without(entries, name);
    LookupAbsent(w, name);
    forall n | n != name
      ensures Lookup(Updated(entries, name, callback), n) == Lookup(entries, n)
    {
      WithoutLookup(entries, name, n);
      if callback.Some? {
        LookupAppend(w, Entry(name, callback.value), n);
      } else {
        assert w + [] == w;
      }
    }
    if callback.Some? {
      var x := Entry(name, callback.value);
      LookupAppend(w, x, name);
      var u := w + [x];
      forall i, j | 0 <= i < j < |u|
        ensures u[i].name != u[j].name
      {
        assert u[i] == w[i];
        if j < |w| {
          assert u[j] == w[j];
        }
      }
    } else {
      assert w + [] == w;
    }
  }

  // ---------------------------------------------------------------------------
  // Dispatch.on, .call and .copy

  /** Every list of callbacks has unique names. */
  ghost predicate ValidRegistry<H>(registry: Registry<H>)
  {
    forall t :: t in registry ==> UniqueNames(registry[t])
  }

  /** Every non-empty type in the list is registered. */
  predicate AllKnown(types: set<string>, ts: seq<Typename>)
  {
    forall k :: 0 <= k < |ts| ==> Known(ts[k], types)
  }

  /** `set` with a null callback on every type: removes the name everywhere. */
  function RemovedEverywhere<H>(registry: Registry<H>, name: string): Registry<H>
  {
    map t | t in registry :: Updated(registry[t], name, None)
  }

  /** Removing a name from every type leaves it on none and keeps the registry valid. */
  lemma RemovedEverywhereSpec<H>(registry: Registry<H>, name: string)
    requires ValidRegistry(registry)
    ensures RemovedEverywhere(registry, name).Keys == registry.Keys
    ensures ValidRegistry(RemovedEverywhere(registry, name))
    ensures forall t :: t in registry ==> Lookup(RemovedEverywhere(registry, name)[t], name) == None
  {
    forall t | t in registry
      ensures UniqueNames(Updated(registry[t], name, None))
      ensures Lookup(Updated(registry[t], name, None), name) == None
    {
      UpdatedSpec(registry[t], name, None);
    }
  }

  /** One typename of the setter form of `on`. */
  function OnOne<H>(registry: Registry<H>, t: Typename, callback: Option<H>): Registry<H>
    requires Known(t, registry.Keys)
  {
    if t.event != "" then registry[t.event := Updated(registry[t.event], t.name, callback)]
    else if callback.None? then RemovedEverywhere(registry, t.name)
    else registry
  }

  /** The setter form of `on` over all typenames, left to right. */
  function OnAll<H>(registry: Registry<H>, ts: seq<Typename>, callback: Option<H>): (r: Registry<H>)
    requires AllKnown(registry.Keys, ts)
    ensures r.Keys == registry.Keys
  {
    if ts == [] then registry
    else
      var before := OnAll(registry, ts[..|ts| - 1], callback);
      OnOne(before, ts[|ts| - 1], callback)
  }

  /** One more typename is one more `OnOne`. */
  lemma OnAllSnoc<H>(registry: Registry<H>, ts: seq<Typename>, i: nat, callback: Option<H>)
    requires i < |ts| && AllKnown(registry.Keys, ts)
    ensures AllKnown(registry.Keys, ts[..i]) && AllKnown(registry.Keys, ts[..i + 1])
    ensures OnAll(registry, ts[..i + 1], callback) == OnOne(OnAll(registry, ts[..i], callback), ts[i], callback)
  {
    assert ts[..i + 1][..i] == ts[..i];
  }

  /** The setter keeps every list of callbacks free of repeated names. */
  lemma {:induction false} OnAllValid<H>(registry: Registry<H>, ts: seq<Typename>, callback: Option<H>)
    requires ValidRegistry(registry) && AllKnown(registry.Keys, ts)
    ensures ValidRegistry(OnAll(registry, ts, callback))
  {
    if ts != [] {
      var init := ts[..|ts| - 1];
      assert AllKnown(registry.Keys, init);
      OnAllValid(registry, init, callback);
      var before := OnAll(registry, init, callback);
      var t := ts[|ts| - 1];
      if t.event != "" {
        UpdatedSpec(before[t.event], t.name, callback);
      } else if callback.None? {
        RemovedEverywhereSpec(before, t.name);
      }
    }
  }

  /** What the getter form of `on` returns: the first callback found, in typename order. */
  function FirstCallback<H>(registry: Registry<H>, ts: seq<Typename>): Option<H>
    requires AllKnown(registry.Keys, ts)
  {
    if ts == [] then None
    else if ts[0].event != "" && Lookup(registry[ts[0].event], ts[0].name).Some? then
      Lookup(registry[ts[0].event], ts[0].name)
    else
      FirstCallback(registry, ts[1..])
  }

  /** The callback values of a list of entries, in order. */
  function Values<H>(entries: seq<Entry<H>>): (r: seq<H>)
    ensures |r| == |entries| && forall k :: 0 <= k < |r| ==> r[k] == entries[k].value
  {
    if entries == [] then [] else [entries[0].value] + Values(entries[1..])
  }

  /**
   * Registering `type.name` and then reading it back gives the callback, and a
   * call of the type invokes it last; registering null removes it.
   */
  lemma OnThenGet<H>(registry: Registry<H>, t: Typename, callback: Option<H>)
    requires ValidRegistry(registry) && t.event != "" && t.event in registry
    ensures AllKnown(registry.Keys, [t])
    ensures FirstCallback(OnAll(registry, [t], callback), [t]) == callback
    ensures callback.Some? ==>
      Values(OnAll(registry, [t], callback)[t.event]) == Values(Without(registry[t.event], t.name)) + [callback.value]
  {
    assert [t][..0] == [];
    var after := OnAll(registry, [t], callback);
    assert OnAll(registry, [], callback) == registry;
    assert after == OnOne(OnAll(registry, [t][..0], callback), t, callback);
    assert after == registry[t.event := Updated(registry[t.event], t.name, callback)];
    UpdatedSpec(registry[t.event], t.name, callback);
    assert [t][1..] == [];
  }

  /** Clearing a name with an empty type removes it from every type. */
  lemma ClearEverywhere<H>(registry: Registry<H>, name: string)
    requires ValidRegistry(registry)
    ensures AllKnown(registry.Keys, [Typename("", name)])
    ensures forall t :: t in registry ==> Lookup(OnAll(registry, [Typename("", name)], None)[t], name) == None
  {
    assert [Typename("", name)][..0] == [];
    RemovedEverywhereSpec(registry, name);
  }

  class Dispatch<H> {
    var registry: Registry<H>

    ghost predicate Valid()
      reads this
    {
      ValidRegistry(registry)
    }

    /** new Dispatch(_): wraps a registry built by `dispatch`. */
    constructor (registry: Registry<H>)
      requires ValidRegistry(registry)
      ensures this.registry == registry && Valid()
    {
      this.registry := registry;
    }

    /**
     * on(typenames, callback): parse first (an unknown type throws before any
     * change), then apply every typename in order.
     */
    method On(typenames: string, callback: Option<H>) returns (r: Result<(), Error>)
      requires Valid()
      modifies this
      ensures Valid()
      ensures ParseTypenames(typenames, old(registry).Keys).Failure? ==>
        r == Failure(ParseTypenames(typenames, old(registry).Keys).error) && registry == old(registry)
      ensures ParseTypenames(typenames, old(registry).Keys).Success? ==>
        r == Success(()) && AllKnown(old(registry).Keys, ParseTypenames(typenames, old(registry).Keys).value)
        && registry == OnAll(old(registry), ParseTypenames(typenames, old(registry).Keys).value, callback)
    {
      var parsed := ParseTypenames(typenames, registry.Keys);
      if parsed.Failure? {
        return Failure(parsed.error);
      }
      ParsedAllKnown(typenames, registry.Keys);
      OnEach(parsed.value, callback);
      return Success(());
    }

    /** The loop of the setter over the parsed typenames. */
    method OnEach(ts: seq<Typename>, callback: Option<H>)
      requires Valid() && AllKnown(registry.Keys, ts)
      modifies this
      ensures Valid() && registry == OnAll(old(registry), ts, callback)
    {
      ghost var start := registry;
      var i := 0;
      while i < |ts|
        invariant 0 <= i <= |ts|
        invariant registry == OnAll(start, ts[..i], callback)
      {
        OnAllSnoc(start, ts, i, callback);
        OnOneStep(ts[i], callback);
        i := i + 1;
      }
      assert ts[..i] == ts;
      OnAllValid(start, ts, callback);
    }

    /** One typename of the setter. */
    method OnOneStep(t: Typename, callback: Option<H>)
      requires Known(t, registry.Keys)
      modifies this
      ensures registry == OnOne(old(registry), t, callback)
    {
      if t.event != "" {
        var updated := Set(registry[t.event], t.name, callback);
        registry := registry[t.event := updated];
      } else if callback.None? {
        RemoveEverywhere(t.name);
      }
    }

    /** The `for (t in _)` loop of `on` with a null callback and no type. */
    method RemoveEverywhere(name: string)
      modifies this
      ensures registry == RemovedEverywhere(old(registry), name)
    {
      ghost var start := registry;
      var todo := registry.Keys;
      while todo != {}
        invariant todo <= start.Keys && registry.Keys == start.Keys
        invariant forall t :: t in todo ==> registry[t] == start[t]
        invariant forall t :: t in start && t !in todo ==> registry[t] == Updated(start[t], name, None)
        decreases |todo|
      {
        var t :| t in todo;
        var updated := Set(registry[t], name, None);
        registry := registry[t := updated];
        todo := todo - {t};
      }
      assert registry.Keys == RemovedEverywhere(start, name).Keys;
    }

    /** on(typenames): the getter form. */
    method Callback(typenames: string) returns (r: Result<Option<H>, Error>)
      ensures ParseTypenames(typenames, registry.Keys).Failure? ==>
        r == Failure(ParseTypenames(typenames, registry.Keys).error)
      ensures ParseTypenames(typenames, registry.Keys).Success? ==>
        AllKnown(registry.Keys, ParseTypenames(typenames, registry.Keys).value)
        && r == Success(FirstCallback(registry, ParseTypenames(typenames, registry.Keys).value))
    {
      var parsed := ParseTypenames(typenames, registry.Keys);
      if parsed.Failure? {
        return Failure(parsed.error);
      }
      ParsedAllKnown(typenames, registry.Keys);
      var c := FindCallback(parsed.value);
      return Success(c);
    }

    /** The loop of the getter over the parsed typenames. */
    method FindCallback(ts: seq<Typename>) returns (r: Option<H>)
      requires AllKnown(registry.Keys, ts)
      ensures r == FirstCallback(registry, ts)
    {
      var i := 0;
      while i < |ts|
        invariant 0 <= i <= |ts|
        invariant AllKnown(registry.Keys, ts[i..])
        invariant FirstCallback(registry, ts) == FirstCallback(registry, ts[i..])
      {
        var t := ts[i];
        assert ts[i..][0] == t && ts[i..][1..] == ts[i + 1..];
        if t.event != "" {
          var c := Get(registry[t.event], t.name);
          if c.Some? {
            return c;
          }
        }
        i := i + 1;
      }
      return None;
    }

    /**
     * call(type, that, ...args): an unregistered type throws; otherwise the
     * result is the list of callbacks invoked, in registration order.
     */
    method Call(event: string) returns (r: Result<seq<H>, Error>)
      ensures event !in registry ==> r == Failure(UnknownType(event))
      ensures event in registry ==> r == Success(Values(registry[event]))
    {
      if event !in registry {
        return Failure(UnknownType(event));
      }
      var entries := registry[event];
      var invoked := [];
      var i := 0;
      while i < |entries|
        invariant 0 <= i <= |entries|
        invariant |invoked| == i && forall k :: 0 <= k < i ==> invoked[k] == entries[k].value
      {
        invoked := invoked + [entries[i].value];
        i := i + 1;
      }
      assert invoked == Values(entries);
      return Success(invoked);
    }

    /** copy(): a new dispatcher with the same registrations. */
    method Copy() returns (d: Dispatch<H>)
      requires Valid()
      ensures fresh(d) && d.registry == registry && d.Valid()
    {
      d := new Dispatch(registry);
    }
  }
}
