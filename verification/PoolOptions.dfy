/** Connection pool options written into the query of a database URL. The query is a list of
    name/value pairs; `Has` and `Set` follow section 6.2 of the WHATWG URL Standard. */
module PoolOptions {

  datatype Param = Param(name: string, value: string)
  type Query = seq<Param>

  predicate Has(q: Query, name: string) {
    exists i :: 0 <= i < |q| && q[i].name == name
  }

  function Without(q: Query, name: string): Query {
    if q == [] then []
    else if q[0].name == name then Without(q[1..], name)
    else [q[0]] + Without(q[1..], name)
  }

  /** The first pair of the name takes the value and the others go; without one, a pair is appended. */
  function Set(q: Query, name: string, value: string): Query {
    if q == [] then [Param(name, value)]
    else if q[0].name == name then [Param(name, value)] + Without(q[1..], name)
    else [q[0]] + Set(q[1..], name, value)
  }

  function SetAll(q: Query, options: seq<Param>): Query
    decreases options
  {
    if options == [] then q else SetAll(Set(q, options[0].name, options[0].value), options[1..])
  }

  function SetMissing(q: Query, options: seq<Param>): Query
    decreases options
  {
    if options == [] then q
    else SetMissing(if Has(q, options[0].name) then q else Set(q, options[0].name, options[0].value), options[1..])
  }

  /** The five connector parameters, in the order their object lists them. */
  datatype Options = Options(connectionLimit: string, minimumIdle: string, acquireTimeout: string,
                             connectTimeout: string, idleTimeout: string)

  const DEFAULTS := Options("10", "1", "10000", "1000", "1800")

  function Parameters(o: Options): (ps: seq<Param>)
    ensures |ps| == 5 && forall i, j | 0 <= i < j < 5 :: ps[i].name != ps[j].name
  {
    [Param("connectionLimit", o.connectionLimit), Param("minimumIdle", o.minimumIdle),
     Param("acquireTimeout", o.acquireTimeout), Param("connectTimeout", o.connectTimeout),
     Param("idleTimeout", o.idleTimeout)]
  }

  // ---- One name ----

  function Values(q: Query, name: string): seq<string> {
    if q == [] then []
    else (if q[0].name == name then [q[0].value] else []) + Values(q[1..], name)
  }

  lemma {:induction false} WithoutValues(q: Query, name: string, other: string)
    ensures Values(Without(q, name), other) == if other == name then [] else Values(q, other)
  {
    if q != [] {
      WithoutValues(q[1..], name, other);
    }
  }

  lemma {:induction false} SetValues(q: Query, name: string, value: string, other: string)
    ensures Values(Set(q, name, value), other) == if other == name then [value] else Values(q, other)
  {
    if q != [] {
      if q[0].name == name {
        WithoutValues(q[1..], name, other);
      } else {
        SetValues(q[1..], name, value, other);
      }
    }
  }

  lemma {:induction false} HasValues(q: Query, name: string)
    ensures Has(q, name) <==> Values(q, name) != []
  {
    if q != [] {
      HasValues(q[1..], name);
      if Has(q, name) && q[0].name != name {
        var i :| 0 <= i < |q| && q[i].name == name;
        assert q[1..][i - 1].name == name;
      }
      if Has(q[1..], name) {
        var i :| 0 <= i < |q[1..]| && q[1..][i].name == name;
        assert q[i + 1].name == name;
      }
    }
  }

  // ---- All five ----

  ghost predicate Named(options: seq<Param>, name: string) {
    exists p :: p in options && p.name == name
  }

  ghost predicate Distinct(options: seq<Param>) {
    forall i, j | 0 <= i < j < |options| :: options[i].name != options[j].name
  }

  /** After setting, each option has exactly its one value and every other name keeps its values. */
  lemma {:induction false} SetAllValues(q: Query, options: seq<Param>, name: string)
    requires Distinct(options)
    ensures !Named(options, name) ==> Values(SetAll(q, options), name) == Values(q, name)
    ensures forall i | 0 <= i < |options| && options[i].name == name :: Values(SetAll(q, options), name) == [options[i].value]
    decreases options
  {
    if options != [] {
      var p, rest := options[0], options[1..];
      var q' := Set(q, p.name, p.value);
      SetValues(q, p.name, p.value, name);
      SetAllValues(q', rest, name);
      if p.name == name {
        assert !Named(rest, name);
      }
      assert p in options && forall r | r in rest :: r in options;
      forall i | 0 <= i < |options| && options[i].name == name ensures Values(SetAll(q, options), name) == [options[i].value] {
        if i > 0 {
          assert rest[i - 1] == options[i];
        }
      }
    }
  }

  function Unrelated(q: Query, options: seq<Param>): Query {
    if q == [] then []
    else (if exists p :: p in options && p.name == q[0].name then [] else [q[0]]) + Unrelated(q[1..], options)
  }

  lemma {:induction false} WithoutUnrelated(q: Query, options: seq<Param>, p: Param)
    requires p in options
    ensures Unrelated(Without(q, p.name), options) == Unrelated(q, options)
  {
    if q != [] {
      WithoutUnrelated(q[1..], options, p);
    }
  }

  lemma {:induction false} SetUnrelated(q: Query, options: seq<Param>, p: Param)
    requires p in options
    ensures Unrelated(Set(q, p.name, p.value), options) == Unrelated(q, options)
  {
    if q != [] {
      if q[0].name == p.name {
        WithoutUnrelated(q[1..], options, p);
      } else {
        SetUnrelated(q[1..], options, p);
      }
    }
  }

  /** Parameters the options do not name stay, in their order, with their values. */
  lemma {:induction false} SetAllKeepsOthers(q: Query, options: seq<Param>, all: seq<Param>)
    requires forall p | p in options :: p in all
    ensures Unrelated(SetAll(q, options), all) == Unrelated(q, all)
    ensures Unrelated(SetMissing(q, options), all) == Unrelated(q, all)
    decreases options
  {
    if options != [] {
      var p := options[0];
      SetUnrelated(q, all, p);
      SetAllKeepsOthers(Set(q, p.name, p.value), options[1..], all);
      SetAllKeepsOthers(q, options[1..], all);
    }
  }

  // ---- Last write wins ----

  lemma {:induction false} WithoutCommutes(q: Query, a: string, b: string)
    ensures Without(Without(q, a), b) == Without(Without(q, b), a)
  {
    if q != [] {
      WithoutCommutes(q[1..], a, b);
    }
  }

  lemma {:induction false} WithoutTwice(q: Query, a: string)
    ensures Without(Without(q, a), a) == Without(q, a)
  {
    if q != [] {
      WithoutTwice(q[1..], a);
    }
  }

  lemma {:induction false} WithoutSet(q: Query, name: string, value: string, a: string)
    requires a != name
    ensures Without(Set(q, name, value), a) == Set(Without(q, a), name, value)
  {
    if q != [] {
      if q[0].name == name {
        WithoutCommutes(q[1..], name, a);
      } else {
        WithoutSet(q[1..], name, value, a);
      }
    }
  }

  lemma {:induction false} SetTwice(q: Query, name: string, first: string, second: string)
    ensures Set(Set(q, name, first), name, second) == Set(q, name, second)
  {
    if q != [] {
      if q[0].name == name {
        WithoutTwice(q[1..], name);
      } else {
        SetTwice(q[1..], name, first, second);
      }
    }
  }

  /** Two sets of different names commute once one of the names is there; before that they do not,
      because a missing name is appended. */
  lemma {:induction false} SetCommutes(q: Query, a: Param, b: Param)
    requires a.name != b.name && Values(q, a.name) != []
    ensures Set(Set(q, b.name, b.value), a.name, a.value) == Set(Set(q, a.name, a.value), b.name, b.value)
  {
    if q[0].name == a.name {
      WithoutSet(q[1..], b.name, b.value, a.name);
    } else if q[0].name == b.name {
      WithoutSet(q[1..], a.name, a.value, b.name);
    } else {
      SetCommutes(q[1..], a, b);
    }
  }

  lemma {:induction false} SetPastAll(q: Query, a: Param, options: seq<Param>)
    requires Values(q, a.name) != [] && !Named(options, a.name)
    ensures Set(SetAll(q, options), a.name, a.value) == SetAll(Set(q, a.name, a.value), options)
    decreases options
  {
    if options != [] {
      var p := options[0];
      assert p in options && forall r | r in options[1..] :: r in options;
      SetCommutes(q, a, p);
      SetValues(q, p.name, p.value, a.name);
      SetPastAll(Set(q, p.name, p.value), a, options[1..]);
    }
  }

  ghost predicate SameNames(a: seq<Param>, b: seq<Param>) {
    |a| == |b| && forall i | 0 <= i < |a| :: a[i].name == b[i].name
  }

  lemma {:induction false} LastWriteWins(q: Query, a: seq<Param>, b: seq<Param>)
    requires SameNames(a, b) && Distinct(a)
    ensures SetAll(SetAll(q, a), b) == SetAll(q, b)
    decreases a
  {
    if a != [] {
      var q' := Set(q, a[0].name, a[0].value);
      SetValues(q, a[0].name, a[0].value, a[0].name);
      NotNamedLater(a);
      SetPastAll(q', b[0], a[1..]);
      SetTwice(q, a[0].name, a[0].value, b[0].value);
      LastWriteWins(Set(q, b[0].name, b[0].value), a[1..], b[1..]);
    }
  }

  lemma NotNamedLater(a: seq<Param>)
    requires a != [] && Distinct(a)
    ensures !Named(a[1..], a[0].name)
  {
  }

  // ---- Defaults ----

  /** A name that is there keeps its values, a missing one gets its default. */
  lemma {:induction false} SetMissingValues(q: Query, options: seq<Param>, name: string)
    requires Distinct(options)
    ensures Values(q, name) != [] || !Named(options, name) ==> Values(SetMissing(q, options), name) == Values(q, name)
    ensures forall i | 0 <= i < |options| && options[i].name == name && Values(q, name) == [] ::
      Values(SetMissing(q, options), name) == [options[i].value]
    decreases options
  {
    if options != [] {
      var p, rest := options[0], options[1..];
      var q' := if Has(q, p.name) then q else Set(q, p.name, p.value);
      HasValues(q, p.name);
      SetValues(q, p.name, p.value, name);
      SetMissingValues(q', rest, name);
      assert p in options && forall r | r in rest :: r in options;
      forall i | 0 <= i < |options| && options[i].name == name && Values(q, name) == []
        ensures Values(SetMissing(q, options), name) == [options[i].value]
      {
        if i > 0 {
          assert rest[i - 1] == options[i];
        } else {
          NotNamedLater(options);
        }
      }
    }
  }

  lemma {:induction false} NothingMissing(q: Query, options: seq<Param>)
    requires forall p | p in options :: Has(q, p.name)
    ensures SetMissing(q, options) == q
  {
    if options != [] {
      NothingMissing(q, options[1..]);
    }
  }

  // ---- The two functions of the module ----

  function WithPoolOptions(q: Query, o: Options): Query {
    SetAll(q, Parameters(o))
  }

  function WithDefaults(q: Query): Query {
    SetMissing(q, Parameters(DEFAULTS))
  }

  lemma PoolOptionsLastWriteWins(q: Query, a: Options, b: Options)
    ensures WithPoolOptions(WithPoolOptions(q, a), b) == WithPoolOptions(q, b)
    ensures WithPoolOptions(WithPoolOptions(q, a), a) == WithPoolOptions(q, a)
  {
    LastWriteWins(q, Parameters(a), Parameters(b));
    LastWriteWins(q, Parameters(a), Parameters(a));
  }

  lemma DefaultsAfterOptionsChangeNothing(q: Query, o: Options)
    ensures WithDefaults(WithPoolOptions(q, o)) == WithPoolOptions(q, o)
  {
    var q', ps := WithPoolOptions(q, o), Parameters(DEFAULTS);
    forall p | p in ps ensures Has(q', p.name) {
      var i :| 0 <= i < 5 && ps[i] == p;
      assert Parameters(o)[i].name == p.name;
      SetAllValues(q, Parameters(o), p.name);
      HasValues(q', p.name);
    }
    NothingMissing(q', ps);
  }

  lemma DefaultsAreIdempotent(q: Query)
    ensures WithDefaults(WithDefaults(q)) == WithDefaults(q)
  {
    var q', ps := WithDefaults(q), Parameters(DEFAULTS);
    forall p | p in ps ensures Has(q', p.name) {
      SetMissingValues(q, ps, p.name);
      HasValues(q', p.name);
    }
    NothingMissing(q', ps);
  }

  /** Each option by its name in the URL, and the defaults by theirs. */
  lemma OptionsByName(q: Query, o: Options)
    ensures var set' := WithPoolOptions(q, o);
      && Values(set', "connectionLimit") == [o.connectionLimit] && Values(set', "minimumIdle") == [o.minimumIdle]
      && Values(set', "acquireTimeout") == [o.acquireTimeout] && Values(set', "connectTimeout") == [o.connectTimeout]
      && Values(set', "idleTimeout") == [o.idleTimeout]
  {
    var ps := Parameters(o);
    forall i | 0 <= i < 5 ensures Values(SetAll(q, ps), ps[i].name) == [ps[i].value] {
      SetAllValues(q, ps, ps[i].name);
    }
    hide SetAll, Values;
    assert ps[0].name == "connectionLimit" && ps[1].name == "minimumIdle" && ps[2].name == "acquireTimeout"
           && ps[3].name == "connectTimeout" && ps[4].name == "idleTimeout";
  }

  function Default(q: Query, name: string, value: string): seq<string> {
    if Values(q, name) == [] then [value] else Values(q, name)
  }

  lemma DefaultsByName(q: Query)
    ensures var d := WithDefaults(q);
      && Values(d, "connectionLimit") == Default(q, "connectionLimit", "10")
      && Values(d, "minimumIdle") == Default(q, "minimumIdle", "1")
      && Values(d, "acquireTimeout") == Default(q, "acquireTimeout", "10000")
      && Values(d, "connectTimeout") == Default(q, "connectTimeout", "1000")
      && Values(d, "idleTimeout") == Default(q, "idleTimeout", "1800")
  {
    var ps := Parameters(DEFAULTS);
    forall i | 0 <= i < 5 ensures Values(SetMissing(q, ps), ps[i].name) == Default(q, ps[i].name, ps[i].value) {
      SetMissingValues(q, ps, ps[i].name);
    }
    hide SetMissing, Values, Default;
    assert ps[0] == Param("connectionLimit", "10") && ps[1] == Param("minimumIdle", "1") && ps[2] == Param("acquireTimeout", "10000")
           && ps[3] == Param("connectTimeout", "1000") && ps[4] == Param("idleTimeout", "1800");
  }

  /** A name that is there keeps its first place and loses the others; a new one comes last. */
  lemma {:induction false} SetKeepsThePlace(q: Query, name: string, value: string, k: nat)
    requires k <= |q| && (forall i | 0 <= i < k :: q[i].name != name) && (k < |q| ==> q[k].name == name)
    ensures Set(q, name, value) == q[..k] + [Param(name, value)] + (if k < |q| then Without(q[k + 1..], name) else [])
  {
    if k > 0 {
      SetKeepsThePlace(q[1..], name, value, k - 1);
      assert q[..k] == [q[0]] + q[1..][..k - 1];
      assert k < |q| ==> q[1..][k..] == q[k + 1..];
    }
  }

  class SearchParams {
    var list: Query

    constructor (q: Query)
      ensures list == q
    {
      list := q;
    }

    method SetParam(name: string, value: string)
      modifies this
      ensures list == Set(old(list), name, value)
    {
      list := Set(list, name, value);
    }
  }

  method DatabaseUrlWithPoolOptions(q: Query, o: Options) returns (result: Query)
    ensures result == WithPoolOptions(q, o)
    ensures forall p | p in Parameters(o) :: Values(result, p.name) == [p.value]
    ensures Unrelated(result, Parameters(o)) == Unrelated(q, Parameters(o))
  {
    var params := new SearchParams(q);
    var ps := Parameters(o);
    for i := 0 to |ps|
      invariant SetAll(params.list, ps[i..]) == SetAll(q, ps)
    {
      params.SetParam(ps[i].name, ps[i].value);
    }
    result := params.list;
    forall p | p in ps ensures Values(result, p.name) == [p.value] {
      SetAllValues(q, ps, p.name);
    }
    SetAllKeepsOthers(q, ps, ps);
  }

  method DatabaseUrlWithDefaultPoolOptions(q: Query) returns (result: Query)
    ensures result == WithDefaults(q)
    ensures forall p | p in Parameters(DEFAULTS) :: Values(result, p.name) == if Has(q, p.name) then Values(q, p.name) else [p.value]
    ensures Unrelated(result, Parameters(DEFAULTS)) == Unrelated(q, Parameters(DEFAULTS))
  {
    var params := new SearchParams(q);
    var ps := Parameters(DEFAULTS);
    for i := 0 to |ps|
      invariant SetMissing(params.list, ps[i..]) == SetMissing(q, ps)
    {
      if !Has(params.list, ps[i].name) {
        params.SetParam(ps[i].name, ps[i].value);
      }
    }
    result := params.list;
    forall p | p in ps ensures Values(result, p.name) == if Has(q, p.name) then Values(q, p.name) else [p.value] {
      SetMissingValues(q, ps, p.name);
      HasValues(q, p.name);
    }
    SetAllKeepsOthers(q, ps, ps);
  }
}
