/** The Python client's settings store: a dictionary read from a JSON object
    whose keys must look like identifiers, plus the list of settings the
    client recognises. */
module JsonNamelist {
  import opened Results
  import opened Json
  import TextNamelist

  /** Why `FromFile` raises: SyntaxError for a non-empty store or a malformed
      key, IndexError for an empty key (its first character is read). */
  datatype NamelistError = NotEmpty | EmptyKey | MalformedKey(key: string)

  /** `s` with every `c` removed, as `str.replace(c, "")`. */
  function Without(s: string, c: char): (r: string)
    ensures |r| <= |s|
    ensures forall x :: x in r <==> x in s && x != c
    ensures r == [] <==> forall i :: 0 <= i < |s| ==> s[i] == c
    decreases |s|
  {
    if s == [] then []
    else if s[0] == c then Without(s[1..], c)
    else [s[0]] + Without(s[1..], c)
  }

  /** `str.isalnum()` over ASCII: non-empty and only letters and digits. */
  predicate IsAlnumString(s: string)
  {
    s != [] && forall i :: 0 <= i < |s| ==> TextNamelist.IsAsciiAlnum(s[i])
  }

  /** The check `FromFile` applies to one key, in the source's order. */
  function KeyError(k: string): (r: Option<NamelistError>)
    ensures r.Some? ==> r.value == if k == "" then EmptyKey else MalformedKey(k)
  {
    if k == "" then Some(EmptyKey)
    else if !(TextNamelist.IsAsciiLetter(k[0]) || k[0] == '_') then Some(MalformedKey(k))
    else if !IsAlnumString(Without(k, '_')) then Some(MalformedKey(k))
    else None
  }

  /** An accepted key: a letter or '_' first, then letters, digits and '_',
      and at least one character that is not '_'. */
  predicate ValidName(k: string)
  {
    && |k| >= 1
    && (TextNamelist.IsAsciiLetter(k[0]) || k[0] == '_')
    && (forall i :: 0 <= i < |k| ==> TextNamelist.IsAsciiAlnum(k[i]) || k[i] == '_')
    && exists i :: 0 <= i < |k| && k[i] != '_'
  }

  lemma KeyErrorSpec(k: string)
    ensures KeyError(k).None? <==> ValidName(k)
  {
    var w := Without(k, '_');
    if ValidName(k) {
      var i :| 0 <= i < |k| && k[i] != '_';
      assert k[i] in w;
      forall j | 0 <= j < |w| ensures TextNamelist.IsAsciiAlnum(w[j]) {
        assert w[j] in k;
      }
    } else if k != "" && (TextNamelist.IsAsciiLetter(k[0]) || k[0] == '_') {
      if forall i :: 0 <= i < |k| ==> TextNamelist.IsAsciiAlnum(k[i]) || k[i] == '_' {
        assert w == [];
      } else {
        var i :| 0 <= i < |k| && !(TextNamelist.IsAsciiAlnum(k[i]) || k[i] == '_');
        assert k[i] in w;
      }
    }
  }

  /** A key the Python store accepts is one the text settings file accepts
      too; the text file additionally accepts keys made only of '_'. */
  lemma ValidNameVersusTextKey(k: string)
    ensures ValidName(k) ==> TextNamelist.ValidKey(k)
    ensures TextNamelist.ValidKey(k) && !ValidName(k) <==>
      |k| >= 1 && forall i :: 0 <= i < |k| ==> k[i] == '_'
  {
  }

  /** The error that stops a read of these members, the first bad key first. */
  function FirstKeyError(items: seq<(string, Json)>): (r: Option<NamelistError>)
    decreases |items|
  {
    if items == [] then None
    else if KeyError(items[0].0).Some? then KeyError(items[0].0)
    else FirstKeyError(items[1..])
  }

  /** A read succeeds exactly when every key is a valid name; a failed one
      reports the first key that is not. */
  lemma {:induction false} FirstKeyErrorSpec(items: seq<(string, Json)>)
    ensures FirstKeyError(items).None? <==> forall i :: 0 <= i < |items| ==> ValidName(items[i].0)
    ensures FirstKeyError(items).Some? ==>
      exists i :: (0 <= i < |items| && FirstKeyError(items) == KeyError(items[i].0) &&
        !ValidName(items[i].0) && forall j :: 0 <= j < i ==> ValidName(items[j].0))
    decreases |items|
  {
    if items != [] {
      KeyErrorSpec(items[0].0);
      FirstKeyErrorSpec(items[1..]);
      var tail := items[1..];
      assert forall i :: 1 <= i < |items| ==> items[i] == tail[i - 1];
      if KeyError(items[0].0).None? && FirstKeyError(tail).Some? {
        var i :| 0 <= i < |tail| && FirstKeyError(tail) == KeyError(tail[i].0) &&
          !ValidName(tail[i].0) && forall j :: 0 <= j < i ==> ValidName(tail[j].0);
        assert items[i + 1] == tail[i];
      }
    }
  }

  /** The dictionary built from the members, a later key overwriting an
      earlier one. */
  function AsMap(items: seq<(string, Json)>): map<string, Json>
    decreases |items|
  {
    if items == [] then map[]
    else AsMap(items[..|items| - 1])[items[|items| - 1].0 := items[|items| - 1].1]
  }

  /** The dictionary holds exactly the keys of the members. */
  lemma {:induction false} AsMapKeys(items: seq<(string, Json)>)
    ensures forall k :: k in AsMap(items) <==> exists i :: 0 <= i < |items| && items[i].0 == k
    decreases |items|
  {
    if items != [] {
      var front, last := items[..|items| - 1], items[|items| - 1];
      AsMapKeys(front);
      forall k ensures k in AsMap(items) <==> exists i :: 0 <= i < |items| && items[i].0 == k {
        if k == last.0 {
          assert items[|items| - 1].0 == k;
        } else {
          if exists i :: 0 <= i < |items| && items[i].0 == k {
            var i :| 0 <= i < |items| && items[i].0 == k;
            assert front[i].0 == k;
          }
          if k in AsMap(front) {
            var i :| 0 <= i < |front| && front[i].0 == k;
            assert items[i].0 == k;
          }
        }
      }
    }
  }

  /** Each key maps to the value of its last occurrence. */
  lemma {:induction false} AsMapLast(items: seq<(string, Json)>, i: int)
    requires 0 <= i < |items|
    requires forall j :: i < j < |items| ==> items[j].0 != items[i].0
    ensures items[i].0 in AsMap(items) && AsMap(items)[items[i].0] == items[i].1
    decreases |items|
  {
    if i < |items| - 1 {
      var front := items[..|items| - 1];
      assert items[|items| - 1].0 != items[i].0;
      assert forall j :: i < j < |front| ==> front[j] == items[j];
      AsMapLast(front, i);
      assert front[i] == items[i];
    }
  }

  class Namelist {
    var store: map<string, Json>

    constructor ()
      ensures store == map[]
    {
      store := map[];
    }

    /** `FromFile` over the members of the loaded JSON object, in file order:
        a non-empty store is refused; otherwise every key is checked and, only
        when all pass, the store becomes the dictionary of the members. */
    method FromFile(items: seq<(string, Json)>) returns (err: Option<NamelistError>)
      modifies this
      ensures old(store) != map[] ==> err == Some(NotEmpty)
      ensures old(store) == map[] ==> err == FirstKeyError(items)
      ensures err.None? ==> store == AsMap(items)
      ensures err.Some? ==> store == old(store)
    {
      if |store| != 0 {
        return Some(NotEmpty);
      }
      var dict := map[];
      var i := 0;
      while i < |items|
        invariant 0 <= i <= |items|
        invariant dict == AsMap(items[..i])
        invariant FirstKeyError(items) == FirstKeyError(items[i..])
      {
        var (key, value) := items[i];
        assert items[i..][1..] == items[i + 1..];
        if key == "" {
          return Some(EmptyKey);
        }
        if !(TextNamelist.IsAsciiLetter(key[0]) || key[0] == '_') {
          return Some(MalformedKey(key));
        }
        if !IsAlnumString(Without(key, '_')) {
          return Some(MalformedKey(key));
        }
        assert items[..i + 1][..i] == items[..i];
        dict := dict[key := value];
        i := i + 1;
      }
      assert items[..i] == items;
      store := dict;
      err := None;
    }

    /** `__getitem__`: the stored value, or None for a missing key. */
    function Get(key: string): (r: Option<Json>)
      reads this
      ensures r.Some? <==> key in store
      ensures r.Some? ==> store[key] == r.value
    {
      if key in store then Some(store[key]) else None
    }

    /** `__setitem__`: insert or overwrite one key; the others keep their values. */
    method Set(key: string, value: Json)
      modifies this
      ensures store == old(store)[key := value]
      ensures Get(key) == Some(value)
      ensures forall k :: k != key ==> Get(k) == old(Get(k))
    {
      store := store[key := value];
    }

    /** `Settings`: the whole store, every entry of which `Get` returns. */
    function Settings(): (r: map<string, Json>)
      reads this
      ensures forall k :: k in r <==> Get(k).Some?
      ensures forall k :: k in r ==> Get(k) == Some(r[k])
    {
      store
    }
  }

  /** The settings the client recognises (`isValidVariable`). */
  predicate IsValidVariable(v: string)
    ensures IsValidVariable(v) ==> ValidName(v)
  {
    v in ["tgz_open_command", "default_local_repo", "default_server"]
  }

  /** Every recognised setting can be stored in either settings file. */
  lemma RecognisedSettingsAreValidNames(v: string)
    requires IsValidVariable(v)
    ensures ValidName(v) && TextNamelist.ValidKey(v)
  {
    assert v[0] != '_';
    ValidNameVersusTextKey(v);
  }
}
