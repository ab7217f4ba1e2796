/** Reading the list of outputs from an MPD reply of key and value pairs. */
module MpdOutputs {
  import opened Basics
  import Decimal

  const MAX_OUTPUTS: nat := 64
  const U32_LIMIT: nat := 0x1_0000_0000

  datatype Output = Output(id: nat, name: string, plugin: string, enabled: bool)

  /** What identifies an output beyond one server process. */
  datatype Identity = Identity(name: string, plugin: string)

  datatype ParseError = TooMany | InvalidId | WithoutId | InvalidState | Incomplete

  function IdentityOf(o: Output): Identity { Identity(o.name, o.plugin) }

  // ---- Reading a reply --------------------------------------------------------------

  type Pairs = seq<(string, string)>

  datatype Reading = Reading(outputs: seq<Output>, current: Option<Output>)

  function ReadPair(state: Reading, key: string, value: string): Result<Reading, ParseError> {
    if key == "outputid" then
      var outputs := All(state);
      if state.current.Some? && |outputs| > MAX_OUTPUTS then Err(TooMany)
      else
        match Decimal.Parse(value, U32_LIMIT)
        case None => Err(InvalidId)
        case Some(id) => Ok(Reading(outputs, Some(Output(id, "", "", false))))
    else if key !in {"outputname", "plugin", "outputenabled"} then Ok(state)
    else if state.current.None? then Err(WithoutId)
    else
      var output := state.current.value;
      if key == "outputname" then Ok(state.(current := Some(output.(name := value))))
      else if key == "plugin" then Ok(state.(current := Some(output.(plugin := value))))
      else if value == "0" || value == "1" then Ok(state.(current := Some(output.(enabled := value == "1"))))
      else Err(InvalidState)
  }

  function ReadPairs(pairs: Pairs): Result<Reading, ParseError> {
    if pairs == [] then Ok(Reading([], None))
    else
      match ReadPairs(pairs[..|pairs| - 1])
      case Err(e) => Err(e)
      case Ok(state) => ReadPair(state, pairs[|pairs| - 1].0, pairs[|pairs| - 1].1)
  }

  function All(state: Reading): seq<Output> {
    if state.current.Some? then state.outputs + [state.current.value] else state.outputs
  }

  predicate Reportable(outputs: seq<Output>) {
    && |outputs| <= MAX_OUTPUTS
    && forall i :: 0 <= i < |outputs| ==> outputs[i].name != "" && outputs[i].plugin != ""
  }

  function Finish(outputs: seq<Output>): Result<seq<Output>, ParseError> {
    if |outputs| > MAX_OUTPUTS then Err(TooMany)
    else if !Reportable(outputs) then Err(Incomplete)
    else Ok(outputs)
  }

  function Parsed(pairs: Pairs): Result<seq<Output>, ParseError> {
    match ReadPairs(pairs)
    case Err(e) => Err(e)
    case Ok(state) => Finish(All(state))
  }

  lemma {:induction false} ErrorStays(pairs: Pairs, n: nat)
    requires n <= |pairs| && ReadPairs(pairs[..n]).Err?
    ensures ReadPairs(pairs) == ReadPairs(pairs[..n])
    decreases |pairs|
  {
    if n < |pairs| {
      var front := pairs[..|pairs| - 1];
      assert front[..n] == pairs[..n];
      ErrorStays(front, n);
    } else {
      assert pairs[..n] == pairs;
    }
  }

  method ParseOutputs(pairs: Pairs) returns (r: Result<seq<Output>, ParseError>)
    ensures r == Parsed(pairs)
  {
    var state := Reading([], None);
    var i := 0;
    assert pairs[..0] == [];
    while i < |pairs|
      invariant 0 <= i <= |pairs| && ReadPairs(pairs[..i]) == Ok(state)
    {
      var next := ReadPair(state, pairs[i].0, pairs[i].1);
      assert pairs[..i + 1][..i] == pairs[..i];
      assert ReadPairs(pairs[..i + 1]) == next;
      if next.Err? {
        ErrorStays(pairs, i + 1);
        return Err(next.error);
      }
      state := next.value;
      i := i + 1;
    }
    assert pairs[..i] == pairs;
    return Finish(All(state));
  }

  /** How a server reports one output; other keys may stand between these. */
  function RenderOne(o: Output): Pairs {
    [("outputid", Decimal.ToString(o.id)), ("outputname", o.name), ("plugin", o.plugin),
     ("outputenabled", if o.enabled then "1" else "0")]
  }

  function Render(outputs: seq<Output>): Pairs {
    if outputs == [] then [] else Render(outputs[..|outputs| - 1]) + RenderOne(outputs[|outputs| - 1])
  }

  lemma ReadSnoc(pairs: Pairs, key: string, value: string)
    ensures ReadPairs(pairs + [(key, value)]) ==
              match ReadPairs(pairs) { case Err(e) => Err(e) case Ok(state) => ReadPair(state, key, value) }
  {
    assert (pairs + [(key, value)])[..|pairs|] == pairs;
  }

  lemma {:induction false} ReadOne(pairs: Pairs, o: Output)
    requires o.id < U32_LIMIT && ReadPairs(pairs).Ok?
    ensures var state := ReadPairs(pairs).value;
            var outputs := All(state);
            ReadPairs(pairs + RenderOne(o)) ==
              if state.current.Some? && |outputs| > MAX_OUTPUTS then Err(TooMany) else Ok(Reading(outputs, Some(o)))
  {
    var r := RenderOne(o);
    var p1 := pairs + [(r[0].0, r[0].1)];
    var p2 := p1 + [(r[1].0, r[1].1)];
    var p3 := p2 + [(r[2].0, r[2].1)];
    ReadSnoc(pairs, r[0].0, r[0].1);
    ReadSnoc(p1, r[1].0, r[1].1);
    ReadSnoc(p2, r[2].0, r[2].1);
    ReadSnoc(p3, r[3].0, r[3].1);
    Decimal.ParseToString(o.id, U32_LIMIT);
    assert pairs + RenderOne(o) == p3 + [(r[3].0, r[3].1)];
  }

  lemma {:induction false} ReadRendered(outputs: seq<Output>)
    requires forall i :: 0 <= i < |outputs| ==> outputs[i].id < U32_LIMIT
    ensures |outputs| <= MAX_OUTPUTS + 1 ==>
              ReadPairs(Render(outputs)) ==
                  Ok(if outputs == [] then Reading([], None)
                       else Reading(outputs[..|outputs| - 1], Some(outputs[|outputs| - 1])))
    ensures |outputs| > MAX_OUTPUTS + 1 ==> ReadPairs(Render(outputs)) == Err(TooMany)
  {
    if outputs != [] {
      var front, last := outputs[..|outputs| - 1], outputs[|outputs| - 1];
      ReadRendered(front);
      if ReadPairs(Render(front)).Ok? {
        ReadOne(Render(front), last);
        if front != [] { assert front == front[..|front| - 1] + [front[|front| - 1]]; }
      } else {
        assert Render(outputs)[..|Render(front)|] == Render(front);
        ErrorStays(Render(outputs), |Render(front)|);
      }
    }
  }

  /** A reported list is read back as it was sent exactly when it is complete and not too long. */
  lemma {:induction false} OutputsRoundTrip(outputs: seq<Output>)
    requires forall i :: 0 <= i < |outputs| ==> outputs[i].id < U32_LIMIT
    ensures Parsed(Render(outputs)) == Ok(outputs) <==> Reportable(outputs)
    ensures Parsed(Render(outputs)).Err? <==> !Reportable(outputs)
  {
    ReadRendered(outputs);
    if 0 < |outputs| <= MAX_OUTPUTS + 1 {
      assert All(ReadPairs(Render(outputs)).value) == outputs;
    }
  }

  // ---- What any reply says ----------------------------------------------------------

  /** Where the outputs of a reply begin. */
  ghost function HeadsOf(pairs: Pairs): seq<nat> {
    if pairs == [] then []
    else HeadsOf(pairs[..|pairs| - 1]) + if pairs[|pairs| - 1].0 == "outputid" then [|pairs| - 1] else []
  }

  /** The last value of a key among some pairs. */
  ghost function LastOf(pairs: Pairs, from: nat, upto: nat, key: string, default: string): string
    requires upto <= |pairs|
  {
    if upto <= from then default
    else if pairs[upto - 1].0 == key then pairs[upto - 1].1 else LastOf(pairs, from, upto - 1, key, default)
  }

  /** What the pairs from an id to the next say; pairs with any other key say nothing. */
  ghost predicate Describes(pairs: Pairs, from: nat, upto: nat, o: Output)
    requires from < upto <= |pairs|
  {
    && Decimal.Parse(pairs[from].1, U32_LIMIT) == Some(o.id)
    && o.name == LastOf(pairs, from, upto, "outputname", "") && o.plugin == LastOf(pairs, from, upto, "plugin", "")
    && o.enabled == (LastOf(pairs, from, upto, "outputenabled", "0") == "1")
  }

  /** A pair that can be read: a number for an id, a zero or one for a state, and nothing before the first id. */
  ghost predicate Readable(pairs: Pairs, i: nat)
    requires i < |pairs|
  {
    var (key, value) := pairs[i];
    && (key == "outputid" ==> Decimal.Parse(value, U32_LIMIT).Some?)
    && (key == "outputenabled" ==> value == "0" || value == "1")
    && (key in {"outputname", "plugin", "outputenabled"} ==> HeadsOf(pairs[..i]) != [])
  }

  ghost predicate HeadsIn(pairs: Pairs, heads: seq<nat>) {
    && (forall k :: 0 <= k < |heads| ==> heads[k] < |pairs| && pairs[heads[k]].0 == "outputid")
    && (forall k, m :: 0 <= k < m < |heads| ==> heads[k] < heads[m])
    && (forall i :: 0 <= i < |pairs| && pairs[i].0 == "outputid" ==> i in heads)
  }

  lemma {:induction false} HeadsMeaning(pairs: Pairs)
    ensures HeadsIn(pairs, HeadsOf(pairs))
  {
    if pairs != [] {
      var front := pairs[..|pairs| - 1];
      HeadsMeaning(front);
      var heads, before := HeadsOf(pairs), HeadsOf(front);
      forall k | 0 <= k < |heads| ensures heads[k] < |pairs| && pairs[heads[k]].0 == "outputid" {
        if k < |before| { assert front[before[k]] == pairs[before[k]]; }
      }
      forall i | 0 <= i < |pairs| && pairs[i].0 == "outputid" ensures i in heads {
        if i < |front| { assert front[i].0 == "outputid"; }
      }
    }
  }

  /** Where the pairs of output `k` end. */
  ghost function EndIn(heads: seq<nat>, k: nat, n: nat): nat
    requires k < |heads|
  {
    if k + 1 < |heads| then heads[k + 1] else n
  }

  ghost predicate DescribesAt(pairs: Pairs, heads: seq<nat>, k: nat, o: Output)
    requires k < |heads|
  {
    && heads[k] < EndIn(heads, k, |pairs|) <= |pairs|
    && Describes(pairs, heads[k], EndIn(heads, k, |pairs|), o)
  }

  ghost predicate DescribesIn(pairs: Pairs, heads: seq<nat>, outputs: seq<Output>) {
    |outputs| == |heads| && forall k :: 0 <= k < |heads| ==> DescribesAt(pairs, heads, k, outputs[k])
  }

  ghost predicate DescribesAll(pairs: Pairs, outputs: seq<Output>) {
    HeadsIn(pairs, HeadsOf(pairs)) && DescribesIn(pairs, HeadsOf(pairs), outputs)
  }

  lemma {:induction false} LastOfPrefix(pairs: Pairs, n: nat, from: nat, upto: nat, key: string, default: string)
    requires upto <= n <= |pairs|
    ensures LastOf(pairs[..n], from, upto, key, default) == LastOf(pairs, from, upto, key, default)
    decreases upto
  {
    if upto > from { LastOfPrefix(pairs, n, from, upto - 1, key, default); }
  }

  lemma DescribesPrefix(pairs: Pairs, n: nat, from: nat, upto: nat, o: Output)
    requires from < upto <= n <= |pairs|
    ensures Describes(pairs[..n], from, upto, o) == Describes(pairs, from, upto, o)
  {
    LastOfPrefix(pairs, n, from, upto, "outputname", "");
    LastOfPrefix(pairs, n, from, upto, "plugin", "");
    LastOfPrefix(pairs, n, from, upto, "outputenabled", "0");
  }

  ghost predicate AllReadable(pairs: Pairs) { forall i :: 0 <= i < |pairs| ==> Readable(pairs, i) }

  lemma ReadableSnoc(pairs: Pairs)
    requires pairs != []
    ensures AllReadable(pairs) <==> AllReadable(pairs[..|pairs| - 1]) && Readable(pairs, |pairs| - 1)
  {
    var front := pairs[..|pairs| - 1];
    forall i | 0 <= i < |front| ensures Readable(front, i) == Readable(pairs, i) {
      assert front[..i] == pairs[..i];
    }
  }

  /** One more pair describes the last output. */
  lemma DescribesMore(pairs: Pairs, from: nat, was: Output, now: Output)
    requires pairs != [] && from < |pairs| - 1 && Describes(pairs[..|pairs| - 1], from, |pairs| - 1, was)
    requires now == FieldRead(was, pairs[|pairs| - 1].0, pairs[|pairs| - 1].1)
    ensures Describes(pairs, from, |pairs|, now)
  {
    DescribesPrefix(pairs, |pairs| - 1, from, |pairs| - 1, was);
  }

  ghost function FieldRead(o: Output, key: string, value: string): Output {
    if key == "outputname" then o.(name := value)
    else if key == "plugin" then o.(plugin := value)
    else if key == "outputenabled" then o.(enabled := value == "1")
    else o
  }

  lemma FieldStep(was: Reading, key: string, value: string, now: Reading)
    requires key != "outputid" && ReadPair(was, key, value) == Ok(now)
    ensures now.outputs == was.outputs && now.current.Some? == was.current.Some?
    ensures was.current.Some? ==> now.current.value == FieldRead(was.current.value, key, value)
  {
  }

  /** What was described before a further pair still is, if its own pairs end before it. */
  lemma DescribesStill(pairs: Pairs, n: nat, heads: seq<nat>, more: seq<nat>, k: nat, o: Output)
    requires n <= |pairs| && k < |heads| <= |more| && heads == more[..|heads|]
    requires DescribesAt(pairs[..n], heads, k, o) && EndIn(more, k, |pairs|) == EndIn(heads, k, n)
    ensures DescribesAt(pairs, more, k, o)
  {
    DescribesPrefix(pairs, n, heads[k], EndIn(heads, k, n), o);
  }

  /** An id alone says no more than the defaults. */
  lemma DescribesNew(pairs: Pairs, id: nat)
    requires pairs != [] && pairs[|pairs| - 1].0 == "outputid"
    requires Decimal.Parse(pairs[|pairs| - 1].1, U32_LIMIT) == Some(id)
    ensures Describes(pairs, |pairs| - 1, |pairs|, Output(id, "", "", false))
  {
    var n := |pairs| - 1;
    assert LastOf(pairs, n, n, "outputname", "") == "" && LastOf(pairs, n, n, "plugin", "") == "";
    assert LastOf(pairs, n, n, "outputenabled", "0") == "0";
  }

  lemma DescribesHead(pairs: Pairs, heads: seq<nat>, was: seq<Output>, id: nat)
    requires pairs != [] && pairs[|pairs| - 1].0 == "outputid" && DescribesIn(pairs[..|pairs| - 1], heads, was)
    requires Decimal.Parse(pairs[|pairs| - 1].1, U32_LIMIT) == Some(id)
    ensures DescribesIn(pairs, heads + [|pairs| - 1], was + [Output(id, "", "", false)])
  {
    var n, more, outputs := |pairs| - 1, heads + [|pairs| - 1], was + [Output(id, "", "", false)];
    forall k: nat | k < |more| ensures DescribesAt(pairs, more, k, outputs[k]) {
      if k < |heads| {
        assert DescribesAt(pairs[..n], heads, k, was[k]);
        DescribesStill(pairs, n, heads, more, k, was[k]);
      } else {
        DescribesNew(pairs, id);
      }
    }
  }

  lemma DescribesField(pairs: Pairs, heads: seq<nat>, was: seq<Output>, now: Output)
    requires pairs != [] && was != [] && DescribesIn(pairs[..|pairs| - 1], heads, was)
    requires now == FieldRead(was[|was| - 1], pairs[|pairs| - 1].0, pairs[|pairs| - 1].1)
    ensures DescribesIn(pairs, heads, was[|was| - 1 := now])
  {
    var n, outputs := |pairs| - 1, was[|was| - 1 := now];
    forall k: nat | k < |heads| ensures DescribesAt(pairs, heads, k, outputs[k]) {
      assert DescribesAt(pairs[..n], heads, k, was[k]);
      if k < |heads| - 1 {
        DescribesStill(pairs, n, heads, heads, k, was[k]);
      } else {
        DescribesMore(pairs, heads[k], was[k], now);
      }
    }
  }

  lemma DescribesSnoc(pairs: Pairs, heads: seq<nat>, more: seq<nat>, was: Reading, now: Reading)
    requires pairs != [] && DescribesIn(pairs[..|pairs| - 1], heads, All(was))
    requires was.current.None? ==> was.outputs == []
    requires more == heads + if pairs[|pairs| - 1].0 == "outputid" then [|pairs| - 1] else []
    requires ReadPair(was, pairs[|pairs| - 1].0, pairs[|pairs| - 1].1) == Ok(now)
    ensures DescribesIn(pairs, more, All(now)) && (now.current.None? ==> now.outputs == [])
  {
    var (key, value) := pairs[|pairs| - 1];
    if key == "outputid" {
      DescribesHead(pairs, heads, All(was), now.current.value.id);
    } else {
      FieldStep(was, key, value, now);
      if was.current.Some? {
        DescribesField(pairs, heads, All(was), now.current.value);
        assert All(now) == All(was)[|All(was)| - 1 := now.current.value];
      }
    }
  }

  /** A reply is read exactly when every pair is readable and no id comes after sixty-five, and then
      the outputs are what their pairs describe. */
  lemma {:induction false} ReadMeaning(pairs: Pairs)
    ensures ReadPairs(pairs).Ok? <==> AllReadable(pairs) && |HeadsOf(pairs)| <= 65
    ensures ReadPairs(pairs).Ok? ==> ReadAs(pairs, ReadPairs(pairs).value)
  {
    HeadsMeaning(pairs);
    if pairs != [] {
      var n := |pairs| - 1;
      ReadMeaning(pairs[..n]);
      ReadableSnoc(pairs);
      if ReadPairs(pairs[..n]).Ok? {
        var was := ReadPairs(pairs[..n]).value;
        var next := ReadPair(was, pairs[n].0, pairs[n].1);
        assert was.current.None? <==> HeadsOf(pairs[..n]) == [];
        if next.Ok? { DescribesSnoc(pairs, HeadsOf(pairs[..n]), HeadsOf(pairs), was, next.value); }
      }
    }
  }

  /** What has been read is what the pairs describe, and the last of it is current. */
  ghost predicate ReadAs(pairs: Pairs, r: Reading) {
    DescribesAll(pairs, All(r)) && (r.current.None? ==> r.outputs == [])
  }

  /** So a list is made of a reply exactly when it is readable and has at most sixty-four outputs, each
      with a name and a plugin; whatever else stands in the reply is passed over. */
  lemma ParsedMeaning(pairs: Pairs)
    ensures Parsed(pairs).Ok? <==>
              && AllReadable(pairs) && |HeadsOf(pairs)| <= 64
              && forall k :: 0 <= k < |HeadsOf(pairs)| ==> Complete(pairs, k)
    ensures Parsed(pairs).Ok? ==> DescribesAll(pairs, Parsed(pairs).value)
  {
    ReadMeaning(pairs);
    HeadsMeaning(pairs);
    if ReadPairs(pairs).Ok? {
      var outputs := All(ReadPairs(pairs).value);
      forall k | 0 <= k < |outputs| ensures Complete(pairs, k) <==> outputs[k].name != "" && outputs[k].plugin != "" {
        assert DescribesAt(pairs, HeadsOf(pairs), k, outputs[k]);
      }
    }
  }

  ghost predicate Complete(pairs: Pairs, k: nat)
    requires k < |HeadsOf(pairs)|
  {
    var (from, upto) := (HeadsOf(pairs)[k], EndIn(HeadsOf(pairs), k, |pairs|));
    && upto <= |pairs|
    && LastOf(pairs, from, upto, "outputname", "") != "" && LastOf(pairs, from, upto, "plugin", "") != ""
  }

  /** Two outputs are one beyond a restart exactly when they agree in name and plugin, whatever their ids. */
  lemma IdentityMeaning(a: Output, b: Output)
    ensures IdentityOf(a) == IdentityOf(b) <==> a.name == b.name && a.plugin == b.plugin
  {
  }
}
