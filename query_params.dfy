/** The parts of `URLSearchParams` (WHATWG URL Standard, section 6.2) and of a
    URL object that the request handlers and the admin search filter use: the
    ordered list of name-value pairs, `get`, `set`, `delete` and serialisation. */
module QueryParams {
  import opened Js

  /** One name-value pair of a query. */
  datatype Pair = Pair(name: string, value: string)

  /** The list of a `URLSearchParams` object, in order, duplicates allowed. */
  type ParamList = seq<Pair>

  /** A URL reduced to what the handlers look at and change. */
  datatype Url = Url(origin: string, pathname: string, query: ParamList)

  /** The values of all pairs with the given name, in order. */
  function Values(l: ParamList, name: string): seq<string>
  {
    if l == [] then []
    else (if l[0].name == name then [l[0].value] else []) + Values(l[1..], name)
  }

  /** `get`: the value of the first pair with that name, or null. */
  function GetParam(l: ParamList, name: string): (r: Option<string>)
    ensures r.None? <==> Values(l, name) == []
    ensures r.Some? ==> r.value == Values(l, name)[0]
  {
    if l == [] then None
    else if l[0].name == name then Some(l[0].value)
    else GetParam(l[1..], name)
  }

  /** `delete`: remove every pair with that name, keeping the order of the rest. */
  function Deleted(l: ParamList, name: string): ParamList
  {
    if l == [] then []
    else (if l[0].name == name then [] else [l[0]]) + Deleted(l[1..], name)
  }

  /** `set`: give the first pair with that name the new value and remove the other
      pairs with that name; append a pair when there is none. */
  function SetParam(l: ParamList, name: string, value: string): ParamList
  {
    if l == [] then [Pair(name, value)]
    else if l[0].name == name then [Pair(name, value)] + Deleted(l[1..], name)
    else [l[0]] + SetParam(l[1..], name, value)
  }

  /** After `delete` no pair has the name; the values under every other name are
      unchanged. */
  lemma {:induction false} DeletedValues(l: ParamList, name: string, other: string)
    ensures Values(Deleted(l, name), name) == []
    ensures other != name ==> Values(Deleted(l, name), other) == Values(l, other)
  {
    if l != [] {
      DeletedValues(l[1..], name, other);
      ValuesAppend((if l[0].name == name then [] else [l[0]]), Deleted(l[1..], name), name);
      ValuesAppend((if l[0].name == name then [] else [l[0]]), Deleted(l[1..], name), other);
    }
  }

  /** After `set` the name holds exactly the new value; the values under every other
      name are unchanged. */
  lemma {:induction false} SetValues(l: ParamList, name: string, value: string, other: string)
    ensures Values(SetParam(l, name, value), name) == [value]
    ensures other != name ==> Values(SetParam(l, name, value), other) == Values(l, other)
  {
    if l != [] {
      if l[0].name == name {
        DeletedValues(l[1..], name, other);
        ValuesAppend([Pair(name, value)], Deleted(l[1..], name), name);
        ValuesAppend([Pair(name, value)], Deleted(l[1..], name), other);
      } else {
        SetValues(l[1..], name, value, other);
        ValuesAppend([l[0]], SetParam(l[1..], name, value), name);
        ValuesAppend([l[0]], SetParam(l[1..], name, value), other);
      }
    }
  }

  /** `get` after `set` and `delete`. */
  lemma GetAfterEdit(l: ParamList, name: string, value: string, other: string)
    ensures GetParam(SetParam(l, name, value), name) == Some(value)
    ensures GetParam(Deleted(l, name), name) == None
    ensures other != name ==> GetParam(SetParam(l, name, value), other) == GetParam(l, other)
    ensures other != name ==> GetParam(Deleted(l, name), other) == GetParam(l, other)
  {
    SetValues(l, name, value, other);
    DeletedValues(l, name, other);
  }

  /** `set` keeps the pairs of every other name where they were: removing the name
      afterwards gives what removing it from the original gives. */
  lemma {:induction false} SetKeepsOthers(l: ParamList, name: string, value: string)
    ensures Deleted(SetParam(l, name, value), name) == Deleted(l, name)
  {
    if l != [] {
      if l[0].name == name {
        DeletedTwice(l[1..], name);
      } else {
        SetKeepsOthers(l[1..], name, value);
      }
    }
  }

  /** Deleting twice is deleting once. */
  lemma {:induction false} DeletedTwice(l: ParamList, name: string)
    ensures Deleted(Deleted(l, name), name) == Deleted(l, name)
  {
    if l != [] {
      DeletedTwice(l[1..], name);
      DeletedAppend((if l[0].name == name then [] else [l[0]]), Deleted(l[1..], name), name);
    }
  }

  /** A list that holds no pair with the name is left alone by `delete`. */
  lemma {:induction false} DeletedAbsent(l: ParamList, name: string)
    requires Values(l, name) == []
    ensures Deleted(l, name) == l
  {
    if l != [] {
      assert l[0].name != name;
      DeletedAbsent(l[1..], name);
    }
  }

  /** A list whose only pair with the name already carries the value is left alone
      by `set`. */
  lemma {:induction false} SetSettled(l: ParamList, name: string, value: string)
    requires Values(l, name) == [value]
    ensures SetParam(l, name, value) == l
  {
    if l[0].name == name {
      assert Values(l, name) == [l[0].value] + Values(l[1..], name);
      assert Values(l, name)[0] == l[0].value;
      assert |Values(l[1..], name)| == 0;
      assert l[0] == Pair(name, value);
      DeletedAbsent(l[1..], name);
      assert l == [l[0]] + l[1..];
    } else {
      SetSettled(l[1..], name, value);
    }
  }

  lemma {:induction false} ValuesAppend(a: ParamList, b: ParamList, name: string)
    ensures Values(a + b, name) == Values(a, name) + Values(b, name)
  {
    if a != [] {
      assert (a + b)[0] == a[0] && (a + b)[1..] == a[1..] + b;
      ValuesAppend(a[1..], b, name);
    } else {
      assert a + b == b;
    }
  }

  lemma {:induction false} DeletedAppend(a: ParamList, b: ParamList, name: string)
    ensures Deleted(a + b, name) == Deleted(a, name) + Deleted(b, name)
  {
    if a != [] {
      assert (a + b)[0] == a[0] && (a + b)[1..] == a[1..] + b;
      DeletedAppend(a[1..], b, name);
    } else {
      assert a + b == b;
    }
  }

  /** The application/x-www-form-urlencoded serialiser: pairs joined by '&', name
      and value joined by '='; the byte-level percent-encoding is `encode`. */
  function Serialize(l: ParamList, encode: string -> string): string
  {
    if l == [] then ""
    else if |l| == 1 then encode(l[0].name) + "=" + encode(l[0].value)
    else encode(l[0].name) + "=" + encode(l[0].value) + "&" + Serialize(l[1..], encode)
  }

  /** A `URLSearchParams` object, updated in place by `set` and `delete`. */
  class SearchParams {
    var list: ParamList

    constructor (init: ParamList)
      ensures list == init
    {
      list := init;
    }

    method Set(name: string, value: string)
      modifies this
      ensures list == SetParam(old(list), name, value)
    {
      list := SetParam(list, name, value);
    }

    method Delete(name: string)
      modifies this
      ensures list == Deleted(old(list), name)
    {
      list := Deleted(list, name);
    }
  }
}
