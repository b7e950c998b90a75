/** Action props (`generateAction`): each clause's body is rewritten so that
    data source variables use their scope names, the data sources a clause
    assigns are collected, and after all bodies one setter call per assigned
    data source publishes the new value. */
module ActionGenerator {
  import opened Wrappers
  import opened TextUtil
  import opened Naming
  import opened Schema
  import opened Expression

  /** The rewritten text so far, the assigned data sources so far (an ordered
      set: a data source joins once, at its first assignment) and the ledger. */
  datatype Transformed = Transformed(text: string, setters: seq<DataSource>, names: Names)

  predicate HasSetter(setters: seq<DataSource>, id: string)
  {
    exists k :: 0 <= k < |setters| && setters[k].id == id
  }

  function AddSetter(setters: seq<DataSource>, d: DataSource): (r: seq<DataSource>)
  {
    if HasSetter(setters, d.id) then setters else setters + [d]
  }

  ghost predicate Grows(st: Transformed, r: Transformed)
  {
    Extends(st.names, r.names) && (Injective(st.names) ==> Injective(r.names))
    && |st.setters| <= |r.setters| && r.setters[..|st.setters|] == st.setters
  }

  /** The identifier callback: an action argument stays as it is; a data
      source variable becomes the data source's scope name (and joins the
      setters when assigned); anything else is reported and kept. */
  function TransformIdentifier(identifier: string, assignee: bool, args: seq<string>,
                               dataSources: seq<DataSource>, st: Transformed): (r: Transformed)
    ensures Grows(st, r)
    ensures PieceNamed(Identifier(identifier, assignee), args, dataSources, r.names)
            && r.text == st.text + PieceText(Identifier(identifier, assignee), args, dataSources, r.names)
    ensures identifier in args || Dependency(identifier, dataSources).None? ==> r == st.(text := st.text + identifier)
    ensures identifier !in args && Dependency(identifier, dataSources).Some?
            && Dependency(identifier, dataSources).value.id in st.names
            ==> r.names == st.names && r.text == st.text + st.names[Dependency(identifier, dataSources).value.id]
  {
    if identifier in args then st.(text := st.text + identifier)
    else
      match Dependency(identifier, dataSources)
      case None => st.(text := st.text + identifier)
      case Some(dep) =>
        var setters := if assignee then AddSetter(st.setters, dep) else st.setters;
        var name := NameFor(st.names, dep.id, dep.name);
        Transformed(st.text + name.text, setters, name.names)
  }

  function TransformCode(code: Code, args: seq<string>, dataSources: seq<DataSource>, st: Transformed): (r: Transformed)
    ensures Grows(st, r)
    decreases |code|
  {
    if code == [] then st
    else
      var next :=
        match code[0]
        case Verbatim(t) => st.(text := st.text + t)
        case Identifier(identifier, assignee) => TransformIdentifier(identifier, assignee, args, dataSources, st);
      TransformCode(code[1..], args, dataSources, next)
  }

  /** A rewritten clause body reads as its pieces with the final ledger. */
  lemma {:induction false} TransformCodeText(code: Code, args: seq<string>, dataSources: seq<DataSource>, st: Transformed)
    ensures var r := TransformCode(code, args, dataSources, st);
      NamedIn(code, args, dataSources, r.names) && r.text == st.text + Rendered(code, args, dataSources, r.names)
    decreases |code|
  {
    if code != [] {
      var next :=
        match code[0]
        case Verbatim(t) => st.(text := st.text + t)
        case Identifier(identifier, assignee) => TransformIdentifier(identifier, assignee, args, dataSources, st);
      var r := TransformCode(code[1..], args, dataSources, next);
      assert next.text == st.text + PieceText(code[0], args, dataSources, next.names);
      TransformCodeText(code[1..], args, dataSources, next);
      PieceStable(code[0], args, dataSources, next.names, r.names);
      forall j | 0 <= j < |code| ensures PieceNamed(code[j], args, dataSources, r.names) {
        if j > 0 { assert code[j] == code[1..][j - 1]; }
      }
    }
  }

  lemma PieceStable(piece: Piece, args: seq<string>, dataSources: seq<DataSource>, earlier: Names, later: Names)
    requires PieceNamed(piece, args, dataSources, earlier) && Extends(earlier, later)
    ensures PieceNamed(piece, args, dataSources, later)
    ensures PieceText(piece, args, dataSources, earlier) == PieceText(piece, args, dataSources, later)
  {
  }

  /** The clause bodies read with one ledger, each followed by a newline. */
  function Bodies(clauses: seq<ActionClause>, dataSources: seq<DataSource>, names: Names): string
    decreases |clauses|
  {
    if clauses == [] then ""
    else Rendered(clauses[0].code, clauses[0].args, dataSources, names) + "\n" + Bodies(clauses[1..], dataSources, names)
  }

  ghost predicate ClausesNamed(clauses: seq<ActionClause>, dataSources: seq<DataSource>, names: Names)
  {
    forall i :: 0 <= i < |clauses| ==> NamedIn(clauses[i].code, clauses[i].args, dataSources, names)
  }

  lemma {:induction false} BodiesStable(clauses: seq<ActionClause>, dataSources: seq<DataSource>, earlier: Names, later: Names)
    requires ClausesNamed(clauses, dataSources, earlier) && Extends(earlier, later)
    ensures ClausesNamed(clauses, dataSources, later)
    ensures Bodies(clauses, dataSources, earlier) == Bodies(clauses, dataSources, later)
    decreases |clauses|
  {
    if clauses != [] {
      RenderedStable(clauses[0].code, clauses[0].args, dataSources, earlier, later);
      assert ClausesNamed(clauses[1..], dataSources, earlier) by {
        forall i | 0 <= i < |clauses[1..]| ensures NamedIn(clauses[1..][i].code, clauses[1..][i].args, dataSources, earlier) {
          assert clauses[1..][i] == clauses[i + 1];
        }
      }
      BodiesStable(clauses[1..], dataSources, earlier, later);
      forall i | 0 <= i < |clauses| ensures NamedIn(clauses[i].code, clauses[i].args, dataSources, later) {
        if i > 0 { assert clauses[i] == clauses[1..][i - 1]; }
      }
    }
  }

  /** The clause loop: returns the arguments of the last clause (`args`
      when there is none) and the accumulated bodies, each followed by a
      newline. */
  function ClausesFrom(clauses: seq<ActionClause>, args: seq<string>, dataSources: seq<DataSource>,
                       st: Transformed): (r: (seq<string>, Transformed))
    ensures r.0 == if clauses == [] then args else clauses[|clauses| - 1].args
    ensures Grows(st, r.1)
    decreases |clauses|
  {
    if clauses == [] then (args, st)
    else
      var c := clauses[0];
      var body := TransformCode(c.code, c.args, dataSources, Transformed("", st.setters, st.names));
      ClausesFrom(clauses[1..], c.args, dataSources, Transformed(st.text + body.text + "\n", body.setters, body.names))
  }

  /** The accumulated bodies: every clause body rewritten with the final
      ledger, in clause order, each on its own line. */
  lemma {:induction false} ClausesText(clauses: seq<ActionClause>, args: seq<string>, dataSources: seq<DataSource>,
                                       st: Transformed)
    ensures var r := ClausesFrom(clauses, args, dataSources, st).1;
      ClausesNamed(clauses, dataSources, r.names) && r.text == st.text + Bodies(clauses, dataSources, r.names)
    decreases |clauses|
  {
    if clauses != [] {
      var c := clauses[0];
      var body := TransformCode(c.code, c.args, dataSources, Transformed("", st.setters, st.names));
      var next := Transformed(st.text + body.text + "\n", body.setters, body.names);
      var r := ClausesFrom(clauses[1..], c.args, dataSources, next).1;
      TransformCodeText(c.code, c.args, dataSources, Transformed("", st.setters, st.names));
      ClausesText(clauses[1..], c.args, dataSources, next);
      assert r == ClausesFrom(clauses, args, dataSources, st).1;
      RenderedStable(c.code, c.args, dataSources, body.names, r.names);
      assert body.text == Rendered(c.code, c.args, dataSources, r.names);
      assert Bodies(clauses, dataSources, r.names) == body.text + "\n" + Bodies(clauses[1..], dataSources, r.names);
      forall i | 0 <= i < |clauses| ensures NamedIn(clauses[i].code, clauses[i].args, dataSources, r.names) {
        if i > 0 { assert clauses[i] == clauses[1..][i - 1]; }
      }
    }
  }

  /** One setter call: the data source's value name and its setter name
      `set$<name>` are taken from the scope, and `setter(value)` is written. */
  function SetterStep(acc: Out, d: DataSource): (r: Out)
    ensures Extends(acc.names, r.names) && (Injective(acc.names) ==> Injective(r.names))
    ensures d.id in r.names && "set$" + d.id in r.names
    ensures r.text == acc.text + SetterCall(r.names, d)
  {
    var value := NameFor(acc.names, d.id, d.name);
    var setter := NameFor(value.names, "set$" + d.id, "set$" + d.name);
    ExtendsTransitive(acc.names, value.names, setter.names);
    var line := setter.text + "(" + value.text + ")\n";
    assert SetterCall(setter.names, d) == line;
    Out(acc.text + line, setter.names)
  }

  /** The setter loop, one call per assigned data source. */
  function SetterCallsFrom(setters: seq<DataSource>, acc: Out): (r: Out)
    ensures Extends(acc.names, r.names) && (Injective(acc.names) ==> Injective(r.names))
    decreases |setters|
  {
    if setters == [] then acc
    else
      var next := SetterStep(acc, setters[0]);
      ExtendsTransitive(acc.names, next.names, SetterCallsFrom(setters[1..], next).names);
      SetterCallsFrom(setters[1..], next)
  }

  function ArgsList(args: seq<string>): string
  {
    Join(seq(|args|, i requires 0 <= i < |args| => args[i] + ": any"), ", ")
  }

  function ActionSpec(clauses: seq<ActionClause>, dataSources: seq<DataSource>, names: Names): (r: Out)
    ensures Extends(names, r.names) && (Injective(names) ==> Injective(r.names))
  {
    var (args, st) := ClausesFrom(clauses, [], dataSources, Transformed("", [], names));
    var calls := SetterCallsFrom(st.setters, Out("", st.names));
    ExtendsTransitive(names, st.names, calls.names);
    Out(ActionText(args, st.text, calls.text), calls.names)
  }

  /** `(<arg>: any, ...) => {` newline, the clause bodies, the setter calls,
      `}`. */
  function ActionText(args: seq<string>, bodies: string, setterCalls: string): string
  {
    "(" + ArgsList(args) + ") => {\n" + bodies + setterCalls + "}"
  }

  // ---------------------------------------------------------------------
  // Which data sources get a setter call

  /** Clause body `code` assigns data source `d`: an assigned identifier that
      is not an argument and denotes `d`. */
  ghost predicate AssignedIn(code: Code, args: seq<string>, dataSources: seq<DataSource>, d: DataSource)
  {
    exists j :: 0 <= j < |code| && code[j].Identifier? && code[j].assignee && code[j].name !in args
                && Dependency(code[j].name, dataSources) == Some(d)
  }

  ghost predicate AssignedByAction(clauses: seq<ActionClause>, dataSources: seq<DataSource>, d: DataSource)
  {
    exists i :: 0 <= i < |clauses| && AssignedIn(clauses[i].code, clauses[i].args, dataSources, d)
  }

  /** Every collected setter is the data source its id denotes. */
  ghost predicate FromSources(setters: seq<DataSource>, dataSources: seq<DataSource>)
  {
    forall k :: 0 <= k < |setters| ==> GetDataSource(dataSources, setters[k].id) == Some(setters[k])
  }

  ghost predicate DistinctIds(setters: seq<DataSource>)
  {
    forall a, b :: 0 <= a < b < |setters| ==> setters[a].id != setters[b].id
  }

  lemma AddSetterMembers(setters: seq<DataSource>, d: DataSource, dataSources: seq<DataSource>)
    requires FromSources(setters, dataSources) && DistinctIds(setters)
    requires GetDataSource(dataSources, d.id) == Some(d)
    ensures FromSources(AddSetter(setters, d), dataSources) && DistinctIds(AddSetter(setters, d))
    ensures forall e :: e in AddSetter(setters, d) <==> e in setters || e == d
  {
    if HasSetter(setters, d.id) {
      var k :| 0 <= k < |setters| && setters[k].id == d.id;
      assert setters[k] == d;
    }
  }

  lemma {:induction false} TransformCodeSetters(code: Code, args: seq<string>, dataSources: seq<DataSource>, st: Transformed)
    requires FromSources(st.setters, dataSources) && DistinctIds(st.setters)
    ensures var r := TransformCode(code, args, dataSources, st);
      FromSources(r.setters, dataSources) && DistinctIds(r.setters)
      && forall d :: d in r.setters <==> d in st.setters || AssignedIn(code, args, dataSources, d)
    decreases |code|
  {
    if code != [] {
      var next :=
        match code[0]
        case Verbatim(t) => st.(text := st.text + t)
        case Identifier(identifier, assignee) => TransformIdentifier(identifier, assignee, args, dataSources, st);
      if code[0].Identifier? && code[0].assignee && code[0].name !in args && Dependency(code[0].name, dataSources).Some? {
        AddSetterMembers(st.setters, Dependency(code[0].name, dataSources).value, dataSources);
      }
      assert forall d :: d in next.setters <==> (d in st.setters
        || (code[0].Identifier? && code[0].assignee && code[0].name !in args && Dependency(code[0].name, dataSources) == Some(d)));
      TransformCodeSetters(code[1..], args, dataSources, next);
      forall d
        ensures AssignedIn(code, args, dataSources, d) <==>
          (code[0].Identifier? && code[0].assignee && code[0].name !in args && Dependency(code[0].name, dataSources) == Some(d))
          || AssignedIn(code[1..], args, dataSources, d)
      {
        if AssignedIn(code[1..], args, dataSources, d) {
          var j :| 0 <= j < |code[1..]| && code[1..][j].Identifier? && code[1..][j].assignee && code[1..][j].name !in args
                   && Dependency(code[1..][j].name, dataSources) == Some(d);
          assert code[j + 1] == code[1..][j];
        }
        if AssignedIn(code, args, dataSources, d) {
          var j :| 0 <= j < |code| && code[j].Identifier? && code[j].assignee && code[j].name !in args
                   && Dependency(code[j].name, dataSources) == Some(d);
          if j > 0 { assert code[1..][j - 1] == code[j]; }
        }
      }
    }
  }

  lemma {:induction false} ClausesSetters(clauses: seq<ActionClause>, args: seq<string>, dataSources: seq<DataSource>, st: Transformed)
    requires FromSources(st.setters, dataSources) && DistinctIds(st.setters)
    ensures var r := ClausesFrom(clauses, args, dataSources, st).1;
      FromSources(r.setters, dataSources) && DistinctIds(r.setters)
      && forall d :: d in r.setters <==> d in st.setters || AssignedByAction(clauses, dataSources, d)
    decreases |clauses|
  {
    if clauses != [] {
      var c := clauses[0];
      var start := Transformed("", st.setters, st.names);
      TransformCodeSetters(c.code, c.args, dataSources, start);
      var body := TransformCode(c.code, c.args, dataSources, start);
      ClausesSetters(clauses[1..], c.args, dataSources, Transformed(st.text + body.text + "\n", body.setters, body.names));
      forall d
        ensures AssignedByAction(clauses, dataSources, d) <==>
          AssignedIn(c.code, c.args, dataSources, d) || AssignedByAction(clauses[1..], dataSources, d)
      {
        if AssignedByAction(clauses[1..], dataSources, d) {
          var i :| 0 <= i < |clauses[1..]| && AssignedIn(clauses[1..][i].code, clauses[1..][i].args, dataSources, d);
          assert clauses[i + 1] == clauses[1..][i];
        }
        if AssignedByAction(clauses, dataSources, d) {
          var i :| 0 <= i < |clauses| && AssignedIn(clauses[i].code, clauses[i].args, dataSources, d);
          if i > 0 { assert clauses[1..][i - 1] == clauses[i]; }
        }
      }
    }
  }

  /** The setters of an action are exactly the data sources some clause
      assigns, each once: several assignments to one data source, in one
      clause or several, produce a single setter call. */
  lemma ActionSetters(clauses: seq<ActionClause>, dataSources: seq<DataSource>, names: Names)
    ensures var setters := ClausesFrom(clauses, [], dataSources, Transformed("", [], names)).1.setters;
      DistinctIds(setters) && forall d :: d in setters <==> AssignedByAction(clauses, dataSources, d)
  {
    ClausesSetters(clauses, [], dataSources, Transformed("", [], names));
  }

  // ---------------------------------------------------------------------
  // What the setter calls say

  function Lookup(names: Names, key: string): string
  {
    if key in names then names[key] else ""
  }

  function SetterCall(names: Names, d: DataSource): string
  {
    Lookup(names, "set$" + d.id) + "(" + Lookup(names, d.id) + ")\n"
  }

  /** The setter calls written with one ledger throughout. */
  function SetterCallsWith(names: Names, setters: seq<DataSource>): string
    decreases |setters|
  {
    if setters == [] then "" else SetterCall(names, setters[0]) + SetterCallsWith(names, setters[1..])
  }

  /** Every setter's value and setter names end up in the ledger. */
  lemma {:induction false} SetterKeysPresent(setters: seq<DataSource>, acc: Out)
    ensures var r := SetterCallsFrom(setters, acc);
      forall d :: d in setters ==> d.id in r.names && "set$" + d.id in r.names
    decreases |setters|
  {
    if setters != [] {
      SetterKeysPresent(setters[1..], SetterStep(acc, setters[0]));
      assert forall e :: e in setters ==> e == setters[0] || e in setters[1..];
    }
  }

  /** The ledger only grows, so each setter call reads the same as it would
      with the final ledger: `set$x(x)` for each setter, in order. */
  lemma {:induction false} SetterCallsText(setters: seq<DataSource>, acc: Out)
    ensures var r := SetterCallsFrom(setters, acc);
      r.text == acc.text + SetterCallsWith(r.names, setters)
    decreases |setters|
  {
    if setters != [] {
      var d := setters[0];
      var next := SetterStep(acc, d);
      SetterCallsText(setters[1..], next);
      var r := SetterCallsFrom(setters[1..], next);
      assert SetterCall(r.names, d) == SetterCall(next.names, d);
    }
  }

  lemma SetterKeysDistinct(a: string, b: string)
    requires a != b
    ensures "set$" + a != "set$" + b
  {
    assert ("set$" + a)[4..] == a && ("set$" + b)[4..] == b;
  }

  /** The generated action: the last clause's arguments typed `any`, every
      rewritten clause body on its own line, then one `set$x(x)` call per
      assigned data source. */
  lemma ActionShape(clauses: seq<ActionClause>, dataSources: seq<DataSource>, names: Names)
    ensures var (args, st) := ClausesFrom(clauses, [], dataSources, Transformed("", [], names));
      var r := ActionSpec(clauses, dataSources, names);
      args == (if clauses == [] then [] else clauses[|clauses| - 1].args)
      && st.text == Bodies(clauses, dataSources, r.names)
      && r.text == ActionText(args, st.text, SetterCallsWith(r.names, st.setters))
  {
    var (args, st) := ClausesFrom(clauses, [], dataSources, Transformed("", [], names));
    SetterCallsText(st.setters, Out("", st.names));
    var calls := SetterCallsFrom(st.setters, Out("", st.names));
    assert calls.text == SetterCallsWith(calls.names, st.setters);
    ClausesText(clauses, [], dataSources, Transformed("", [], names));
    BodiesStable(clauses, dataSources, st.names, calls.names);
  }

  /** Distinct assigned data sources are published through distinct setters. */
  lemma ActionSetterNamesDistinct(clauses: seq<ActionClause>, dataSources: seq<DataSource>, names: Names)
    requires Injective(names)
    ensures var st := ClausesFrom(clauses, [], dataSources, Transformed("", [], names)).1;
      var r := ActionSpec(clauses, dataSources, names);
      forall a, b :: 0 <= a < b < |st.setters| ==>
        Lookup(r.names, "set$" + st.setters[a].id) != Lookup(r.names, "set$" + st.setters[b].id)
  {
    var st := ClausesFrom(clauses, [], dataSources, Transformed("", [], names)).1;
    ActionSetters(clauses, dataSources, names);
    SetterKeysPresent(st.setters, Out("", st.names));
    var r := ActionSpec(clauses, dataSources, names);
    assert r.names == SetterCallsFrom(st.setters, Out("", st.names)).names;
    forall a, b | 0 <= a < b < |st.setters|
      ensures Lookup(r.names, "set$" + st.setters[a].id) != Lookup(r.names, "set$" + st.setters[b].id)
    {
      SetterKeysDistinct(st.setters[a].id, st.setters[b].id);
      assert st.setters[a] in st.setters && st.setters[b] in st.setters;
    }
  }

  /** An action without clauses is the empty function. */
  lemma EmptyAction(dataSources: seq<DataSource>, names: Names)
    ensures ActionSpec([], dataSources, names) == Out("() => {\n}", names)
  {
  }

  // ---------------------------------------------------------------------
  // The imperative generator

  method TransformClause(scope: Scope, code: Code, args: seq<string>, dataSources: seq<DataSource>,
                         setters: seq<DataSource>) returns (text: string, setters': seq<DataSource>)
    requires scope.Valid()
    modifies scope
    ensures scope.Valid()
    ensures Transformed(text, setters', scope.names) == TransformCode(code, args, dataSources, Transformed("", setters, old(scope.names)))
  {
    text := "";
    setters' := setters;
    for i := 0 to |code|
      invariant scope.Valid()
      invariant TransformCode(code, args, dataSources, Transformed("", setters, old(scope.names)))
             == TransformCode(code[i..], args, dataSources, Transformed(text, setters', scope.names))
    {
      assert code[i..][1..] == code[i + 1..];
      match code[i] {
        case Verbatim(t) =>
          text := text + t;
        case Identifier(identifier, assignee) =>
          if identifier in args {
            text := text + identifier;
          } else {
            var dep := Dependency(identifier, dataSources);
            if dep.Some? {
              if assignee {
                setters' := AddSetter(setters', dep.value);
              }
              var name := scope.GetName(dep.value.id, dep.value.name);
              text := text + name;
            } else {
              text := text + identifier;
            }
          }
      }
    }
  }

  method GenerateAction(scope: Scope, clauses: seq<ActionClause>, dataSources: seq<DataSource>) returns (generated: string)
    requires scope.Valid()
    modifies scope
    ensures scope.Valid()
    ensures Out(generated, scope.names) == ActionSpec(clauses, dataSources, old(scope.names))
  {
    var setters: seq<DataSource> := [];
    var args: seq<string> := [];
    var assignersCode := "";
    for i := 0 to |clauses|
      invariant scope.Valid()
      invariant ClausesFrom(clauses, [], dataSources, Transformed("", [], old(scope.names)))
             == ClausesFrom(clauses[i..], args, dataSources, Transformed(assignersCode, setters, scope.names))
    {
      assert clauses[i..][1..] == clauses[i + 1..];
      args := clauses[i].args;
      var body;
      body, setters := TransformClause(scope, clauses[i].code, args, dataSources, setters);
      assignersCode := assignersCode + body + "\n";
    }
    assert clauses[|clauses|..] == [];
    ghost var afterClauses := scope.names;
    var settersCode := "";
    for k := 0 to |setters|
      invariant scope.Valid()
      invariant SetterCallsFrom(setters, Out("", afterClauses)) == SetterCallsFrom(setters[k..], Out(settersCode, scope.names))
    {
      assert setters[k..][1..] == setters[k + 1..];
      var d := setters[k];
      ghost var before := scope.names;
      var valueName := scope.GetName(d.id, d.name);
      var setterName := scope.GetName("set$" + d.id, "set$" + d.name);
      var line := setterName + "(" + valueName + ")\n";
      assert settersCode + line == SetterStep(Out(settersCode, before), d).text;
      settersCode := settersCode + line;
    }
    assert setters[|setters|..] == [];
    generated := ActionText(args, assignersCode, settersCode);
  }
}
