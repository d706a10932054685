/** The algebra behind `pulumi.Output` in the Python SDK. An output resolves to an
    `OutputData` record: the resources it depends on, a value that may be the `UNKNOWN`
    sentinel (during a preview), and a secret flag. With the asyncio tasks taken away
    (every `_data` is modelled as already resolved), `apply`, `all`, `secret`,
    `unsecret` and the `_map*_output` helpers are pure functions on these records:
    resources are unioned, secrecy is or-ed, unknown is absorbing, and callbacks are
    not run on unknown values. */
module Output {
  import opened Wrappers

  /** A resource an output depends on; only its identity matters here. */
  datatype Resource = Resource(urn: string)

  /** `T | Unknown`: a concrete value, or the `UNKNOWN` singleton. */
  datatype Value<T> = Known(v: T) | Unknown

  datatype OutputData<T> = OutputData(resources: set<Resource>, value: Value<T>, secret: bool)

  /** `Input[T]`: a prompt value, an awaitable (modelled by the value it resolves to),
      or an existing output. */
  datatype Input<T> = Prompt(v: T) | Awaitable(v: T) | FromOutput(data: OutputData<T>)

  /** The value of `Output.all`: a list for positional inputs, a dict for keyword ones. */
  datatype Aggregate<T> = ListOf(items: seq<T>) | DictOf(entries: map<string, T>)

  const MixedInputsError: string := "Output.all() was supplied a mix of named and unnamed inputs"

  /** `OutputData.__init__`: an omitted secret flag (`None`) is stored as `False`. */
  function NewOutputData<T>(resources: set<Resource>, value: Value<T>, secret: Option<bool>): (d: OutputData<T>)
    ensures d.resources == resources && d.value == value
    ensures d.secret <==> secret == Some(true)
  {
    OutputData(resources, value, if secret.None? then false else secret.value)
  }

  /** `Output.is_known`. */
  predicate IsKnown<T>(d: OutputData<T>): (r: bool)
    ensures r <==> d.value != Unknown
  {
    d.value.Known?
  }

  /** `Output.future(with_unknowns)`: `None` stands for Python's `None`, `Some(Unknown)`
      for the `UNKNOWN` sentinel. */
  function Future<T>(d: OutputData<T>, withUnknowns: bool): (r: Option<Value<T>>)
    ensures IsKnown(d) ==> r == Some(d.value)
    ensures !IsKnown(d) && withUnknowns ==> r == Some(Unknown)
    ensures !IsKnown(d) && !withUnknowns ==> r == None
  {
    match d.value
    case Unknown => if withUnknowns then Some(Unknown) else None
    case Known(_) => Some(d.value)
  }

  // ------------------------------------------------------------------ apply

  /** `Output.apply(func, run_with_unknowns)`. The callback receives the value (the
      `UNKNOWN` sentinel itself when `run_with_unknowns` forces a call on an unknown
      value) and returns an input: an output's data is merged in, anything else is
      the new known value. */
  function Apply<T, U>(d: OutputData<T>, func: Value<T> -> Input<U>, runWithUnknowns: bool): (r: OutputData<U>)
    ensures d.value.Unknown? && !runWithUnknowns ==> r == OutputData(d.resources, Unknown, d.secret)
    ensures d.value.Known? || runWithUnknowns ==>
      match func(d.value)
      case FromOutput(o) => r == OutputData(d.resources + o.resources, o.value, d.secret || o.secret)
      case Prompt(v) => r == OutputData(d.resources, Known(v), d.secret)
      case Awaitable(v) => r == OutputData(d.resources, Known(v), d.secret)
  {
    if d.value.Unknown? && !runWithUnknowns then
      OutputData(d.resources, Unknown, d.secret)
    else
      match func(d.value)
      case FromOutput(o) => OutputData(d.resources + o.resources, o.value, d.secret || o.secret)
      case Prompt(v) => OutputData(d.resources, Known(v), d.secret)
      case Awaitable(v) => OutputData(d.resources, Known(v), d.secret)
  }

  /** A plain Python callable `T -> U` seen as an `apply` callback. Its `Unknown` arm
      is never reached while `run_with_unknowns` is off. */
  function Lift<T, U>(f: T -> U): Value<T> -> Input<U>
  {
    (x: Value<T>) => match x
         case Known(v) => Prompt(f(v))
         case Unknown => FromOutput(OutputData({}, Unknown, false))
  }

  /** `apply` never calls its callback on an unknown value (unless told to): two
      different callbacks give the same result, unknown with the same resources and
      secret flag. */
  lemma ApplyUnknownSkipsCallback<T, U>(d: OutputData<T>, f: Value<T> -> Input<U>, g: Value<T> -> Input<U>)
    requires d.value.Unknown?
    ensures Apply(d, f, false) == Apply(d, g, false)
    ensures Apply(d, f, false) == OutputData(d.resources, Unknown, d.secret)
  {
  }

  /** Dependencies and secrecy only ever grow through `apply`. */
  lemma ApplyKeepsDependencies<T, U>(d: OutputData<T>, f: Value<T> -> Input<U>, runWithUnknowns: bool)
    ensures d.resources <= Apply(d, f, runWithUnknowns).resources
    ensures d.secret ==> Apply(d, f, runWithUnknowns).secret
  {
  }

  /** Chaining two `apply`s whose callbacks return outputs is the same as one `apply`
      whose callback does the second step inside: nested outputs flatten, whatever is
      known. */
  lemma ApplyChainsAssociate<T, U, W>(d: OutputData<T>, k1: Value<T> -> OutputData<U>, k2: Value<U> -> OutputData<W>)
    ensures
      var step1 := (x: Value<T>) => FromOutput(k1(x));
      var step2 := (y: Value<U>) => FromOutput(k2(y));
      var both := (x: Value<T>) => FromOutput(Apply(k1(x), step2, false));
      Apply(Apply(d, step1, false), step2, false) == Apply(d, both, false)
  {
    var step1 := (x: Value<T>) => FromOutput(k1(x));
    var step2 := (y: Value<U>) => FromOutput(k2(y));
    var both := (x: Value<T>) => FromOutput(Apply(k1(x), step2, false));
    if d.value.Known? {
      var o1 := k1(d.value);
      if o1.value.Known? {
        var o2 := k2(o1.value);
        assert d.resources + o1.resources + o2.resources == d.resources + (o1.resources + o2.resources);
      }
    }
  }

  // ------------------------------------------------------------------ inputs

  /** `Output._from_input_shallow`: an output is returned as it is; a prompt value or
      an awaited one becomes a known, non-secret output with no dependencies. */
  function FromInputShallow<T>(i: Input<T>): (d: OutputData<T>)
    ensures i.FromOutput? ==> d == i.data
    ensures !i.FromOutput? ==> d == OutputData({}, Known(i.v), false)
  {
    match i
    case FromOutput(o) => o
    case Prompt(v) => OutputData({}, Known(v), false)
    case Awaitable(v) => OutputData({}, Known(v), false)
  }

  /** `Output.from_input` on a value that is not a list, a dict or an input class: an
      output is re-applied with `from_input` as its callback. */
  function FromInput<T>(i: Input<T>): (d: OutputData<T>)
    ensures i.FromOutput? ==> d == i.data
    ensures !i.FromOutput? ==> d == OutputData({}, Known(i.v), false)
  {
    match i
    case FromOutput(o) =>
      assert o.resources + {} == o.resources;
      Apply(o, (x: Value<T>) => FromOutput(OutputData({}, x, false)), false)
    case Prompt(v) => OutputData({}, Known(v), false)
    case Awaitable(v) => OutputData({}, Known(v), false)
  }

  /** `Output.from_input` as its awaitable branch is written: the coroutine it schedules
      calls `from_input` again on the same, still un-awaited value, so each step only
      schedules the next. `fuel` bounds how many of these steps are followed; `None`
      means no data has been produced yet. Every other input converts as `FromInput`. */
  function FromInputAsWritten<T>(i: Input<T>, fuel: nat): (r: Option<OutputData<T>>)
    ensures !i.Awaitable? ==> r == Some(FromInput(i))
    ensures r.Some? ==> !i.Awaitable?
  {
    match i
    case Awaitable(_) => if fuel == 0 then None else FromInputAsWritten(i, fuel - 1)
    case _ => Some(FromInput(i))
  }

  /** However many steps are followed, the awaitable branch as written never yields
      data, whereas the intended conversion awaits the value first. */
  lemma {:induction false} AwaitableNeverResolves<T>(v: T, fuel: nat)
    ensures FromInputAsWritten(Awaitable(v), fuel) == None
    ensures FromInput(Awaitable(v)) == FromInput(Prompt(v))
  {
    if fuel > 0 {
      AwaitableNeverResolves(v, fuel - 1);
    }
  }

  /** For such values the deep and the shallow conversion agree. */
  lemma FromInputIsShallow<T>(i: Input<T>)
    ensures FromInput(i) == FromInputShallow(i)
  {
  }

  // ------------------------------------------------------------------ secret

  /** `Output.secret`: the converted input, marked secret. */
  function Secret<T>(i: Input<T>): (r: OutputData<T>)
    ensures r.secret
    ensures r.resources == FromInputShallow(i).resources && r.value == FromInputShallow(i).value
  {
    FromInputIsShallow(i);
    var d := FromInput(i);
    OutputData(d.resources, d.value, true)
  }

  /** `Output.unsecret`. */
  function Unsecret<T>(d: OutputData<T>): (r: OutputData<T>)
    ensures !r.secret && r.resources == d.resources && r.value == d.value
  {
    OutputData(d.resources, d.value, false)
  }

  /** Marking twice is marking once, in both directions, and each undoes the other's
      flag without touching resources or value. */
  lemma SecretUnsecretIdempotent<T>(d: OutputData<T>)
    ensures Secret(FromOutput(Secret(FromOutput(d)))) == Secret(FromOutput(d))
    ensures Unsecret(Unsecret(d)) == Unsecret(d)
    ensures Unsecret(Secret(FromOutput(d))) == Unsecret(d)
    ensures Secret(FromOutput(Unsecret(d))) == Secret(FromOutput(d))
  {
  }

  // ------------------------------------------------------------------ all

  /** `reduce(lambda acc, d: acc.union(d.resources), data_list, set())`. */
  function UnionAll<T>(ds: seq<OutputData<T>>): (r: set<Resource>)
    ensures forall x :: x in r <==> exists i :: 0 <= i < |ds| && x in ds[i].resources
  {
    if ds == [] then {}
    else
      var init := ds[..|ds| - 1];
      assert forall i :: 0 <= i < |init| ==> init[i] == ds[i];
      UnionAll(init) + ds[|ds| - 1].resources
  }

  /** `any(data.secret for data in data_list)`. */
  function AnySecret<T>(ds: seq<OutputData<T>>): (r: bool)
    ensures r <==> exists i :: 0 <= i < |ds| && ds[i].secret
  {
    if ds == [] then false
    else ds[0].secret || AnySecret(ds[1..])
  }

  /** `all(not isinstance(data.value, Unknown) for data in data_list)`. */
  function AllKnown<T>(ds: seq<OutputData<T>>): (r: bool)
    ensures r <==> forall i :: 0 <= i < |ds| ==> ds[i].value.Known?
  {
    if ds == [] then true
    else ds[0].value.Known? && AllKnown(ds[1..])
  }

  /** `[data.value for data in data_list]`, once every value is known. */
  function KnownValues<T>(ds: seq<OutputData<T>>): (r: seq<T>)
    requires AllKnown(ds)
    ensures |r| == |ds|
    ensures forall i :: 0 <= i < |ds| ==> ds[i].value == Known(r[i])
  {
    if ds == [] then []
    else [ds[0].value.v] + KnownValues(ds[1..])
  }

  /** `gather_list` inside `Output.all`. */
  function GatherList<T>(ds: seq<OutputData<T>>): (r: OutputData<Aggregate<T>>)
    ensures r.resources == UnionAll(ds) && r.secret == AnySecret(ds)
    ensures r.value.Known? <==> AllKnown(ds)
    ensures r.value.Known? ==> r.value.v == ListOf(KnownValues(ds))
  {
    OutputData(UnionAll(ds), if AllKnown(ds) then Known(ListOf(KnownValues(ds))) else Unknown, AnySecret(ds))
  }

  /** `gather_dict` inside `Output.all`. */
  function GatherDict<T>(outs: map<string, OutputData<T>>): (r: OutputData<Aggregate<T>>)
    ensures forall x :: x in r.resources <==> exists k :: k in outs && x in outs[k].resources
    ensures r.secret <==> exists k :: k in outs && outs[k].secret
    ensures r.value.Known? <==> forall k :: k in outs ==> outs[k].value.Known?
    ensures r.value.Known? ==>
      && r.value.v.DictOf? && r.value.v.entries.Keys == outs.Keys
      && forall k :: k in outs ==> outs[k].value == Known(r.value.v.entries[k])
  {
    var resources := set k, x | k in outs && x in outs[k].resources :: x;
    var secret := exists k :: k in outs && outs[k].secret;
    var known := forall k :: k in outs ==> outs[k].value.Known?;
    OutputData(resources, if known then Known(DictOf(map k | k in outs :: outs[k].value.v)) else Unknown, secret)
  }

  /** The dict form and the list form agree on dependencies, secrecy and knownness for
      any enumeration of the dict's values. */
  lemma GatherDictAgreesWithList<T>(outs: map<string, OutputData<T>>, keys: seq<string>)
    requires forall k :: k in outs <==> k in keys
    ensures
      var ds := seq(|keys|, i requires 0 <= i < |keys| => outs[keys[i]]);
      && GatherDict(outs).resources == GatherList(ds).resources
      && GatherDict(outs).secret == GatherList(ds).secret
      && GatherDict(outs).value.Known? == GatherList(ds).value.Known?
  {
    var ds := seq(|keys|, i requires 0 <= i < |keys| => outs[keys[i]]);
    var d, l := GatherDict(outs), GatherList(ds);
    forall x | x in l.resources ensures x in d.resources {
      var i :| 0 <= i < |ds| && x in ds[i].resources;
      assert keys[i] in outs;
    }
    forall x | x in d.resources ensures x in l.resources {
      var k :| k in outs && x in outs[k].resources;
      var i :| 0 <= i < |keys| && keys[i] == k;
      assert x in ds[i].resources;
    }
    if d.secret {
      var k :| k in outs && outs[k].secret;
      var i :| 0 <= i < |keys| && keys[i] == k;
      assert ds[i].secret;
    }
    if l.secret {
      var i :| 0 <= i < |ds| && ds[i].secret;
      assert keys[i] in outs;
    }
    if !d.value.Known? {
      var k :| k in outs && !outs[k].value.Known?;
      var i :| 0 <= i < |keys| && keys[i] == k;
      assert !ds[i].value.Known?;
    }
  }

  /** `Output.all(*args, **kwargs)`; every input goes through `from_input` first.
      Mixing positional and keyword inputs raises `ValueError`. */
  function All<T>(args: seq<Input<T>>, kwargs: map<string, Input<T>>): (r: Result<OutputData<Aggregate<T>>, string>)
    ensures r.Err? <==> |args| > 0 && |kwargs| > 0
    ensures r.Err? ==> r.error == MixedInputsError
    ensures |kwargs| == 0 ==> r.Ok? && r.value.value.Known? ==> r.value.value.v.ListOf?
    ensures |args| == 0 && |kwargs| == 0 ==> r == Ok(OutputData({}, Known(ListOf([])), false))
    ensures r.Ok? && |kwargs| == 0 ==>
      && (forall x :: x in r.value.resources <==> exists i :: 0 <= i < |args| && x in FromInputShallow(args[i]).resources)
      && (r.value.secret <==> exists i :: 0 <= i < |args| && FromInputShallow(args[i]).secret)
      && (r.value.value.Known? <==> forall i :: 0 <= i < |args| ==> FromInputShallow(args[i]).value.Known?)
    ensures r.Ok? && |kwargs| > 0 ==>
      && (forall x :: x in r.value.resources <==> exists k :: k in kwargs && x in FromInputShallow(kwargs[k]).resources)
      && (r.value.secret <==> exists k :: k in kwargs && FromInputShallow(kwargs[k]).secret)
      && (r.value.value.Known? <==> forall k :: k in kwargs ==> FromInputShallow(kwargs[k]).value.Known?)
    ensures r.Ok? && |kwargs| == 0 ==>
      r.value == GatherList(seq(|args|, i requires 0 <= i < |args| => FromInputShallow(args[i])))
    ensures r.Ok? && |kwargs| > 0 ==>
      r.value == GatherDict(map k | k in kwargs :: FromInputShallow(kwargs[k]))
  {
    if |args| > 0 && |kwargs| > 0 then Err(MixedInputsError)
    else if |kwargs| > 0 then
      var outs := map k | k in kwargs :: FromInput(kwargs[k]);
      assert forall k :: k in kwargs ==> outs[k] == FromInputShallow(kwargs[k]) by {
        forall k | k in kwargs { FromInputIsShallow(kwargs[k]); }
      }
      assert outs == map k | k in kwargs :: FromInputShallow(kwargs[k]);
      Ok(GatherDict(outs))
    else
      var ds := seq(|args|, i requires 0 <= i < |args| => FromInput(args[i]));
      assert forall i :: 0 <= i < |args| ==> ds[i] == FromInputShallow(args[i]) by {
        forall i | 0 <= i < |args| { FromInputIsShallow(args[i]); }
      }
      assert ds == seq(|args|, i requires 0 <= i < |args| => FromInputShallow(args[i]));
      Ok(GatherList(ds))
  }

  /** `Output.all(foo, bar) -> Output[[foo, bar]]`: prompt values are gathered into a
      known, non-secret list of themselves, in order, with no dependencies. */
  lemma AllOfPrompts<T>(values: seq<T>)
    ensures All(seq(|values|, i requires 0 <= i < |values| => Prompt(values[i])), map[])
         == Ok(OutputData({}, Known(ListOf(values)), false))
  {
    var args := seq(|values|, i requires 0 <= i < |values| => Prompt(values[i]));
    var ds := seq(|args|, i requires 0 <= i < |args| => FromInputShallow(args[i]));
    assert forall i :: 0 <= i < |ds| ==> ds[i] == OutputData({}, Known(values[i]), false);
    var g := GatherList(ds);
    assert g.resources == {};
    assert AllKnown(ds);
    assert KnownValues(ds) == values;
  }

  // ------------------------------------------------------------------ map helpers

  /** `_map_output`: transform a known value with a pure function. */
  function MapOutput<T, U>(d: OutputData<T>, transform: T -> U): (r: OutputData<U>)
    ensures r.resources == d.resources && r.secret == d.secret
    ensures r.value.Known? <==> d.value.Known?
    ensures d.value.Known? ==> r.value == Known(transform(d.value.v))
  {
    match d.value
    case Unknown => OutputData(d.resources, Unknown, d.secret)
    case Known(v) => OutputData(d.resources, Known(transform(v)), d.secret)
  }

  /** `_map2_output`. */
  function Map2Output<T1, T2, U>(d1: OutputData<T1>, d2: OutputData<T2>, transform: (T1, T2) -> U): (r: OutputData<U>)
    ensures r.resources == d1.resources + d2.resources
    ensures r.secret == (d1.secret || d2.secret)
    ensures r.value.Unknown? <==> d1.value.Unknown? || d2.value.Unknown?
    ensures r.value.Known? ==> r.value.v == transform(d1.value.v, d2.value.v)
  {
    var resources := d1.resources + d2.resources;
    var secret := d1.secret || d2.secret;
    if d1.value.Unknown? || d2.value.Unknown? then OutputData(resources, Unknown, secret)
    else OutputData(resources, Known(transform(d1.value.v, d2.value.v)), secret)
  }

  /** `_map3_output`. */
  function Map3Output<T1, T2, T3, U>(d1: OutputData<T1>, d2: OutputData<T2>, d3: OutputData<T3>,
                                     transform: (T1, T2, T3) -> U): (r: OutputData<U>)
    ensures r.resources == d1.resources + d2.resources + d3.resources
    ensures r.secret == (d1.secret || d2.secret || d3.secret)
    ensures r.value.Unknown? <==> d1.value.Unknown? || d2.value.Unknown? || d3.value.Unknown?
    ensures r.value.Known? ==> r.value.v == transform(d1.value.v, d2.value.v, d3.value.v)
  {
    var resources := d1.resources + d2.resources + d3.resources;
    var secret := d1.secret || d2.secret || d3.secret;
    if d1.value.Unknown? || d2.value.Unknown? || d3.value.Unknown? then OutputData(resources, Unknown, secret)
    else OutputData(resources, Known(transform(d1.value.v, d2.value.v, d3.value.v)), secret)
  }

  /** `_map_output` is `apply` with a plain callback. */
  lemma MapOutputIsApply<T, U>(d: OutputData<T>, f: T -> U)
    ensures MapOutput(d, f) == Apply(d, Lift(f), false)
  {
  }

  /** `_map2_output` joins like `Output.all` over the same two outputs: same
      dependencies, same secrecy, and unknown in exactly the same cases. */
  lemma Map2AgreesWithAll<T>(d1: OutputData<T>, d2: OutputData<T>, transform: (T, T) -> T)
    ensures
      var all := GatherList([d1, d2]);
      && Map2Output(d1, d2, transform).resources == all.resources
      && Map2Output(d1, d2, transform).secret == all.secret
      && Map2Output(d1, d2, transform).value.Known? == all.value.Known?
  {
    var ds := [d1, d2];
    var all := GatherList(ds);
    forall x ensures x in all.resources <==> x in d1.resources + d2.resources {
      if x in all.resources {
        var i :| 0 <= i < 2 && x in ds[i].resources;
      } else {
        assert x !in ds[0].resources && x !in ds[1].resources;
      }
    }
    if all.secret {
      var i :| 0 <= i < 2 && ds[i].secret;
    } else {
      assert !ds[0].secret && !ds[1].secret;
    }
    if !all.value.Known? {
      var i :| 0 <= i < 2 && !ds[i].value.Known?;
    } else {
      assert ds[0].value.Known? && ds[1].value.Known?;
    }
  }

  // ------------------------------------------------------------------ deep unwrapping

  /** A value as `from_input` walks it: a leaf it does not look into, a list, a dict
      with string keys, or an output whose value is again such a value. (Input classes
      are decomposed like dicts and are not modelled separately.) */
  datatype Nested = Leaf(s: string) | ListN(items: seq<Nested>) | DictN(entries: map<string, Nested>)
                  | OutputN(data: OutputData<Nested>)

  /** What `from_input` promises to produce: the same shape with no input left in it. */
  datatype Plain = PLeaf(s: string) | PList(items: seq<Plain>) | PDict(entries: map<string, Plain>)

  function ToPlain(a: Aggregate<Plain>): Plain {
    match a
    case ListOf(xs) => PList(xs)
    case DictOf(m) => PDict(m)
  }

  /** `Output.from_input` in full: outputs are re-applied with `from_input`, non-empty
      lists go through `all(*val)`, non-empty dicts through `all(**d)`, and anything
      else (empty containers included) becomes a known, non-secret value. */
  function FromInputDeep(n: Nested): (r: OutputData<Plain>)
    ensures n.OutputN? ==> n.data.resources <= r.resources && (n.data.secret ==> r.secret)
    ensures n.OutputN? && n.data.value.Unknown? ==> r.value.Unknown?
  {
    match n
    case Leaf(s) => OutputData({}, Known(PLeaf(s)), false)
    case ListN(items) =>
      if items == [] then OutputData({}, Known(PList([])), false)
      else MapOutput(GatherList(seq(|items|, i requires 0 <= i < |items| => FromInputDeep(items[i]))), ToPlain)
    case DictN(entries) =>
      if entries == map[] then OutputData({}, Known(PDict(map[])), false)
      else MapOutput(GatherDict(map k | k in entries :: FromInputDeep(entries[k])), ToPlain)
    case OutputN(o) =>
      match o.value
      case Unknown => OutputData(o.resources, Unknown, o.secret)
      case Known(inner) =>
        var r := FromInputDeep(inner);
        OutputData(o.resources + r.resources, r.value, o.secret || r.secret)
  }

  /** The output case of `FromInputDeep` is literally `val.apply(Output.from_input)`. */
  lemma FromInputDeepOfOutputIsApply(o: OutputData<Nested>)
    ensures FromInputDeep(OutputN(o)) == Apply(o, (x: Value<Nested>) => FromOutput(if x.Known? then FromInputDeep(x.v) else OutputData({}, Unknown, false)), false)
  {
  }

  /** True when no output occurs anywhere inside `n`. */
  predicate NoOutputs(n: Nested) {
    match n
    case Leaf(_) => true
    case ListN(items) => forall i :: 0 <= i < |items| ==> NoOutputs(items[i])
    case DictN(entries) => forall k :: k in entries ==> NoOutputs(entries[k])
    case OutputN(_) => false
  }

  /** An input with no output inside is a prompt value: known, not secret, no
      dependencies, and unwrapped to itself. */
  lemma {:induction false} FromInputDeepOfPlain(n: Nested)
    requires NoOutputs(n)
    ensures !UnknownInside(n) && FromInputDeep(n) == OutputData({}, Known(Unwrap(n)), false)
  {
    NothingInsidePlain(n);
    FromInputDeepResources(n);
    FromInputDeepSecretAndKnown(n);
    FromInputDeepValue(n);
  }

  /** Whether some output reachable in `n` is secret. An output's value is only looked
      into when it is known, since `apply` does not run on unknown values. */
  predicate SecretInside(n: Nested) {
    match n
    case Leaf(_) => false
    case ListN(items) => exists i :: 0 <= i < |items| && SecretInside(items[i])
    case DictN(entries) => exists k :: k in entries && SecretInside(entries[k])
    case OutputN(o) => o.secret || (o.value.Known? && SecretInside(o.value.v))
  }

  /** Whether some output reachable in `n` is unknown. */
  predicate UnknownInside(n: Nested) {
    match n
    case Leaf(_) => false
    case ListN(items) => exists i :: 0 <= i < |items| && UnknownInside(items[i])
    case DictN(entries) => exists k :: k in entries && UnknownInside(entries[k])
    case OutputN(o) => o.value.Unknown? || UnknownInside(o.value.v)
  }

  /** An input with no output inside has no resource, secret or unknown inside. */
  lemma {:induction false} NothingInsidePlain(n: Nested)
    requires NoOutputs(n)
    ensures ResourcesInside(n) == {} && !SecretInside(n) && !UnknownInside(n)
  {
    match n
    case Leaf(_) =>
    case ListN(items) =>
      forall i | 0 <= i < |items|
        ensures ResourcesInside(items[i]) == {} && !SecretInside(items[i]) && !UnknownInside(items[i])
      {
        NothingInsidePlain(items[i]);
      }
    case DictN(entries) =>
      forall k | k in entries
        ensures ResourcesInside(entries[k]) == {} && !SecretInside(entries[k]) && !UnknownInside(entries[k])
      {
        NothingInsidePlain(entries[k]);
      }
  }

  /** The dependencies of every output reachable in `n`; as for the secret flag, an
      output's value is only looked into when it is known. */
  function ResourcesInside(n: Nested): set<Resource> {
    match n
    case Leaf(_) => {}
    case ListN(items) => set i, x | 0 <= i < |items| && x in ResourcesInside(items[i]) :: x
    case DictN(entries) => set k, x | k in entries && x in ResourcesInside(entries[k]) :: x
    case OutputN(o) => o.resources + (if o.value.Known? then ResourcesInside(o.value.v) else {})
  }

  /** The plain value `n` stands for once every output in it is resolved. */
  function Unwrap(n: Nested): Plain
    requires !UnknownInside(n)
  {
    match n
    case Leaf(s) => PLeaf(s)
    case ListN(items) => PList(seq(|items|, i requires 0 <= i < |items| => Unwrap(items[i])))
    case DictN(entries) => PDict(map k | k in entries :: Unwrap(entries[k]))
    case OutputN(o) => Unwrap(o.value.v)
  }

  /** Deep unwrapping depends on exactly the resources of the outputs reachable in `n`. */
  lemma {:induction false} FromInputDeepResources(n: Nested)
    ensures FromInputDeep(n).resources == ResourcesInside(n)
  {
    match n
    case Leaf(_) =>
    case ListN(items) =>
      var ds := seq(|items|, i requires 0 <= i < |items| => FromInputDeep(items[i]));
      forall i | 0 <= i < |items| ensures ds[i].resources == ResourcesInside(items[i]) {
        FromInputDeepResources(items[i]);
      }
    case DictN(entries) =>
      var outs := map k | k in entries :: FromInputDeep(entries[k]);
      forall k | k in entries ensures outs[k].resources == ResourcesInside(entries[k]) {
        FromInputDeepResources(entries[k]);
      }
    case OutputN(o) =>
      if o.value.Known? {
        FromInputDeepResources(o.value.v);
      }
  }

  /** When every reachable output is known, deep unwrapping yields the unwrapped value. */
  lemma {:induction false} FromInputDeepValue(n: Nested)
    requires !UnknownInside(n)
    ensures FromInputDeep(n).value == Known(Unwrap(n))
  {
    match n
    case Leaf(_) =>
    case ListN(items) =>
      if items != [] {
        var ds := seq(|items|, i requires 0 <= i < |items| => FromInputDeep(items[i]));
        forall i | 0 <= i < |items| ensures ds[i].value == Known(Unwrap(items[i])) {
          FromInputDeepValue(items[i]);
        }
        assert AllKnown(ds);
        var vs := KnownValues(ds);
        assert vs == seq(|items|, i requires 0 <= i < |items| => Unwrap(items[i])) by {
          forall i | 0 <= i < |items| ensures vs[i] == Unwrap(items[i]) {
            assert ds[i].value == Known(vs[i]);
          }
        }
      } else {
        assert Unwrap(n) == PList([]);
      }
    case DictN(entries) =>
      if entries != map[] {
        var outs := map k | k in entries :: FromInputDeep(entries[k]);
        forall k | k in entries ensures outs[k].value == Known(Unwrap(entries[k])) {
          FromInputDeepValue(entries[k]);
        }
        var g := GatherDict(outs);
        assert g.value.Known?;
        assert g.value.v.entries == map k | k in entries :: Unwrap(entries[k]);
      } else {
        assert Unwrap(n) == PDict(map[]);
      }
    case OutputN(o) =>
      FromInputDeepValue(o.value.v);
  }

  /** Deep unwrapping is secret exactly when a reachable output is secret, and unknown
      exactly when a reachable output is unknown. */
  lemma {:induction false} FromInputDeepSecretAndKnown(n: Nested)
    ensures FromInputDeep(n).secret <==> SecretInside(n)
    ensures FromInputDeep(n).value.Unknown? <==> UnknownInside(n)
  {
    match n
    case Leaf(_) =>
    case ListN(items) =>
      if items != [] {
        var ds := seq(|items|, i requires 0 <= i < |items| => FromInputDeep(items[i]));
        forall i | 0 <= i < |items|
          ensures ds[i].secret <==> SecretInside(items[i])
          ensures ds[i].value.Unknown? <==> UnknownInside(items[i])
        {
          FromInputDeepSecretAndKnown(items[i]);
        }
      }
    case DictN(entries) =>
      if entries != map[] {
        var outs := map k | k in entries :: FromInputDeep(entries[k]);
        forall k | k in entries
          ensures outs[k].secret <==> SecretInside(entries[k])
          ensures outs[k].value.Unknown? <==> UnknownInside(entries[k])
        {
          FromInputDeepSecretAndKnown(entries[k]);
        }
      }
    case OutputN(o) =>
      if o.value.Known? {
        FromInputDeepSecretAndKnown(o.value.v);
      }
  }

  // ------------------------------------------------------------------ secret and all, deeply

  /** `Output.secret` on any input: `from_input` unwraps it deeply, then the result is
      marked secret. */
  function SecretDeep(n: Nested): (r: OutputData<Plain>)
    ensures r.secret
    ensures r.resources == FromInputDeep(n).resources && r.value == FromInputDeep(n).value
  {
    var d := FromInputDeep(n);
    OutputData(d.resources, d.value, true)
  }

  /** What `secret` keeps of its input: the dependencies of every output inside it,
      unknown exactly when one of those is, and otherwise the unwrapped value; a value
      with no output inside becomes a known secret of itself. */
  lemma SecretDeepUnwraps(n: Nested)
    ensures SecretDeep(n).resources == ResourcesInside(n)
    ensures SecretDeep(n).value.Unknown? <==> UnknownInside(n)
    ensures !UnknownInside(n) ==> SecretDeep(n).value == Known(Unwrap(n))
    ensures NoOutputs(n) ==> !UnknownInside(n) && SecretDeep(n) == OutputData({}, Known(Unwrap(n)), true)
  {
    FromInputDeepResources(n);
    FromInputDeepSecretAndKnown(n);
    if !UnknownInside(n) {
      FromInputDeepValue(n);
    }
    if NoOutputs(n) {
      FromInputDeepOfPlain(n);
    }
  }

  /** On a leaf the deep `secret` is the generic one. */
  lemma SecretDeepOfLeaf(s: string)
    ensures SecretDeep(Leaf(s)) == Secret(Prompt(PLeaf(s)))
  {
  }

  /** `Output.all` on any inputs: each goes through the deep `from_input`. */
  function AllDeep(args: seq<Nested>, kwargs: map<string, Nested>): (r: Result<OutputData<Aggregate<Plain>>, string>)
    ensures r.Err? <==> |args| > 0 && |kwargs| > 0
    ensures r.Err? ==> r.error == MixedInputsError
    ensures r.Ok? && |kwargs| == 0 && r.value.value.Known? ==> r.value.value.v.ListOf? && |r.value.value.v.items| == |args|
    ensures r.Ok? && |kwargs| > 0 && r.value.value.Known? ==> r.value.value.v.DictOf? && r.value.value.v.entries.Keys == kwargs.Keys
  {
    if |args| > 0 && |kwargs| > 0 then Err(MixedInputsError)
    else if |kwargs| > 0 then Ok(GatherDict(map k | k in kwargs :: FromInputDeep(kwargs[k])))
    else Ok(GatherList(seq(|args|, i requires 0 <= i < |args| => FromInputDeep(args[i]))))
  }

  /** `all(*args)` depends on every output inside any argument, is secret exactly when
      one of them is, and unknown exactly when one of them is. */
  lemma AllDeepListSecretAndKnown(args: seq<Nested>)
    ensures var r := AllDeep(args, map[]).value;
      && (forall x :: x in r.resources <==> exists i :: 0 <= i < |args| && x in ResourcesInside(args[i]))
      && (r.secret <==> exists i :: 0 <= i < |args| && SecretInside(args[i]))
      && (r.value.Unknown? <==> exists i :: 0 <= i < |args| && UnknownInside(args[i]))
  {
    var ds := seq(|args|, i requires 0 <= i < |args| => FromInputDeep(args[i]));
    forall i | 0 <= i < |args|
      ensures ds[i].resources == ResourcesInside(args[i])
      ensures ds[i].secret <==> SecretInside(args[i])
      ensures ds[i].value.Unknown? <==> UnknownInside(args[i])
    {
      FromInputDeepResources(args[i]);
      FromInputDeepSecretAndKnown(args[i]);
    }
  }

  /** The same for `all(**kwargs)`. */
  lemma AllDeepDictSecretAndKnown(kwargs: map<string, Nested>)
    requires |kwargs| > 0
    ensures var r := AllDeep([], kwargs).value;
      && (forall x :: x in r.resources <==> exists k :: k in kwargs && x in ResourcesInside(kwargs[k]))
      && (r.secret <==> exists k :: k in kwargs && SecretInside(kwargs[k]))
      && (r.value.Unknown? <==> exists k :: k in kwargs && UnknownInside(kwargs[k]))
  {
    var outs := map k | k in kwargs :: FromInputDeep(kwargs[k]);
    forall k | k in kwargs
      ensures outs[k].resources == ResourcesInside(kwargs[k])
      ensures outs[k].secret <==> SecretInside(kwargs[k])
      ensures outs[k].value.Unknown? <==> UnknownInside(kwargs[k])
    {
      FromInputDeepResources(kwargs[k]);
      FromInputDeepSecretAndKnown(kwargs[k]);
    }
  }

  /** When every output reachable in the arguments is known, `all(*args)` is the list
      of their unwrapped values. */
  lemma AllDeepListValue(args: seq<Nested>)
    requires forall i :: 0 <= i < |args| ==> !UnknownInside(args[i])
    ensures AllDeep(args, map[]).value.value == Known(ListOf(seq(|args|, i requires 0 <= i < |args| => Unwrap(args[i]))))
  {
    var ds := seq(|args|, i requires 0 <= i < |args| => FromInputDeep(args[i]));
    forall i | 0 <= i < |args| ensures ds[i].value == Known(Unwrap(args[i])) {
      FromInputDeepValue(args[i]);
    }
    assert AllKnown(ds);
    var vs := KnownValues(ds);
    assert vs == seq(|args|, i requires 0 <= i < |args| => Unwrap(args[i])) by {
      forall i | 0 <= i < |args| ensures vs[i] == Unwrap(args[i]) {
        assert ds[i].value == Known(vs[i]);
      }
    }
  }

  /** The same for `all(**kwargs)`: the dict of the unwrapped values. */
  lemma AllDeepDictValue(kwargs: map<string, Nested>)
    requires |kwargs| > 0
    requires forall k :: k in kwargs ==> !UnknownInside(kwargs[k])
    ensures var r := AllDeep([], kwargs).value.value;
      && r.Known? && r.v.DictOf? && r.v.entries.Keys == kwargs.Keys
      && forall k :: k in kwargs ==> r.v.entries[k] == Unwrap(kwargs[k])
  {
    var outs := map k | k in kwargs :: FromInputDeep(kwargs[k]);
    forall k | k in kwargs ensures outs[k].value == Known(Unwrap(kwargs[k])) {
      FromInputDeepValue(kwargs[k]);
    }
    var g := GatherDict(outs);
    assert AllDeep([], kwargs) == Ok(g);
    assert g.value.Known?;
    forall k | k in kwargs ensures g.value.v.entries[k] == Unwrap(kwargs[k]) {
      assert outs[k].value == Known(g.value.v.entries[k]);
    }
  }

  /** Inputs with no output inside are gathered into the list of their plain values. */
  lemma AllDeepOfPlain(args: seq<Nested>)
    requires forall i :: 0 <= i < |args| ==> NoOutputs(args[i])
    ensures (forall i :: 0 <= i < |args| ==> !UnknownInside(args[i]))
         && AllDeep(args, map[]) == Ok(OutputData({}, Known(ListOf(seq(|args|, i requires 0 <= i < |args| => Unwrap(args[i])))), false))
  {
    var ds := seq(|args|, i requires 0 <= i < |args| => FromInputDeep(args[i]));
    forall i | 0 <= i < |args| ensures !UnknownInside(args[i]) && ds[i] == OutputData({}, Known(Unwrap(args[i])), false) {
      FromInputDeepOfPlain(args[i]);
    }
    AllDeepListValue(args);
    assert GatherList(ds).resources == {};
  }

}
