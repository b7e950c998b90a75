/** The slice of the expression engine the generator depends on. Parsing and
    validation are not part of this model: code arrives as a sequence of
    pieces, and what is modelled is how identifiers are resolved. */
module Expression {
  import opened Wrappers
  import opened Naming
  import opened Schema

  const DataSourceVariablePrefix := "$ws$dataSource$"

  function EncodeDataSourceVariable(id: string): string
  {
    DataSourceVariablePrefix + id
  }

  /** `decodeDataSourceVariable(identifier)`. */
  function DecodeDataSourceVariable(identifier: string): (r: Option<string>)
  {
    var n := |DataSourceVariablePrefix|;
    if |identifier| >= n && identifier[..n] == DataSourceVariablePrefix then Some(identifier[n..]) else None
  }

  /** Encoding and decoding a data source variable are inverse to each other. */
  lemma DecodeEncode(id: string, identifier: string)
    ensures DecodeDataSourceVariable(EncodeDataSourceVariable(id)) == Some(id)
    ensures DecodeDataSourceVariable(identifier) == Some(id) ==> EncodeDataSourceVariable(id) == identifier
  {
    var n := |DataSourceVariablePrefix|;
    var e := EncodeDataSourceVariable(id);
    assert e[..n] == DataSourceVariablePrefix && e[n..] == id;
    if DecodeDataSourceVariable(identifier) == Some(id) {
      assert identifier == identifier[..n] + identifier[n..];
    }
  }

  /** The data source an identifier denotes:
      `depId ? dataSources.get(depId) : undefined` (an empty id is falsy). */
  function Dependency(identifier: string, dataSources: seq<DataSource>): (r: Option<DataSource>)
    ensures r.Some? ==> r.value in dataSources && GetDataSource(dataSources, r.value.id) == r
    ensures r.Some? ==> identifier == EncodeDataSourceVariable(r.value.id)
  {
    var depId := DecodeDataSourceVariable(identifier);
    if depId.Some? && depId.value != "" then
      DecodeEncode(depId.value, identifier);
      GetDataSource(dataSources, depId.value)
    else None
  }

  /** The error the expression engine raises for an identifier it cannot bind. */
  datatype GenError = UnknownDependency(identifier: string)

  ghost predicate Unbound(code: Code, dataSources: seq<DataSource>)
  {
    exists j :: 0 <= j < |code| && code[j].Identifier? && Dependency(code[j].name, dataSources).None?
  }

  /** Every data source variable of the piece, other than an argument, has a
      scope name in `names`. */
  predicate PieceNamed(piece: Piece, args: seq<string>, dataSources: seq<DataSource>, names: Names)
  {
    piece.Identifier? && piece.name !in args && Dependency(piece.name, dataSources).Some?
    ==> Dependency(piece.name, dataSources).value.id in names
  }

  ghost predicate NamedIn(code: Code, args: seq<string>, dataSources: seq<DataSource>, names: Names)
  {
    forall j :: 0 <= j < |code| ==> PieceNamed(code[j], args, dataSources, names)
  }

  /** What a piece reads as once the ledger names its data source: verbatim
      code, an argument and an identifier that denotes no data source stay
      as they are; a data source variable becomes the data source's scope
      name. */
  function PieceText(piece: Piece, args: seq<string>, dataSources: seq<DataSource>, names: Names): string
  {
    match piece
    case Verbatim(t) => t
    case Identifier(identifier, _) =>
      if identifier in args then identifier
      else
        match Dependency(identifier, dataSources)
        case None => identifier
        case Some(dep) => if dep.id in names then names[dep.id] else identifier
  }

  /** The pieces read with one ledger throughout. */
  function Rendered(code: Code, args: seq<string>, dataSources: seq<DataSource>, names: Names): string
    decreases |code|
  {
    if code == [] then "" else PieceText(code[0], args, dataSources, names) + Rendered(code[1..], args, dataSources, names)
  }

  /** A ledger that only grows reads a named piece the same. */
  lemma {:induction false} RenderedStable(code: Code, args: seq<string>, dataSources: seq<DataSource>,
                                          earlier: Names, later: Names)
    requires NamedIn(code, args, dataSources, earlier) && Extends(earlier, later)
    ensures NamedIn(code, args, dataSources, later)
    ensures Rendered(code, args, dataSources, earlier) == Rendered(code, args, dataSources, later)
    decreases |code|
  {
    if code != [] {
      assert PieceNamed(code[0], args, dataSources, earlier);
      assert forall j :: 0 <= j < |code[1..]| ==> code[1..][j] == code[j + 1];
      RenderedStable(code[1..], args, dataSources, earlier, later);
      assert PieceText(code[0], args, dataSources, earlier) == PieceText(code[0], args, dataSources, later);
    }
  }

  /** One piece of an expression: verbatim text is copied, an identifier is
      replaced by the scope name of the data source it denotes, and an
      identifier that denotes none is an error. */
  function ExpressionStep(piece: Piece, dataSources: seq<DataSource>, acc: Out): (r: Result<Out, GenError>)
    ensures r.Err? <==> piece.Identifier? && Dependency(piece.name, dataSources).None?
    ensures r.Ok? ==> Extends(acc.names, r.value.names) && (Injective(acc.names) ==> Injective(r.value.names))
    ensures r.Ok? ==> |r.value.text| >= |acc.text| && r.value.text[..|acc.text|] == acc.text
    ensures r.Ok? ==> PieceNamed(piece, [], dataSources, r.value.names)
                      && r.value.text == acc.text + PieceText(piece, [], dataSources, r.value.names)
    ensures piece.Verbatim? ==> r == Ok(Out(acc.text + piece.text, acc.names))
    ensures piece.Identifier? && Dependency(piece.name, dataSources).Some?
            && Dependency(piece.name, dataSources).value.id in acc.names
            ==> r == Ok(Out(acc.text + acc.names[Dependency(piece.name, dataSources).value.id], acc.names))
  {
    match piece
    case Verbatim(t) => Ok(Out(acc.text + t, acc.names))
    case Identifier(identifier, _) =>
      match Dependency(identifier, dataSources)
      case None => Err(UnknownDependency(identifier))
      case Some(dep) =>
        var name := NameFor(acc.names, dep.id, dep.name);
        Ok(Out(acc.text + name.text, name.names))
  }

  /** `generateExpression`: the pieces in order, stopping at the first error. */
  function ExpressionFrom(code: Code, dataSources: seq<DataSource>, acc: Out): (r: Result<Out, GenError>)
    ensures r.Err? <==> Unbound(code, dataSources)
    ensures r.Ok? ==> Extends(acc.names, r.value.names) && (Injective(acc.names) ==> Injective(r.value.names))
    ensures r.Ok? ==> |r.value.text| >= |acc.text| && r.value.text[..|acc.text|] == acc.text
    decreases |code|
  {
    if code == [] then Ok(acc)
    else
      var r :=
        match ExpressionStep(code[0], dataSources, acc)
        case Err(e) => Err(e)
        case Ok(next) =>
          var r := ExpressionFrom(code[1..], dataSources, next);
          if r.Ok? then
            ExtendsTransitive(acc.names, next.names, r.value.names);
            assert r.value.text[..|acc.text|] == r.value.text[..|next.text|][..|acc.text|];
            r
          else r;
      assert Unbound(code, dataSources) <==>
             (code[0].Identifier? && Dependency(code[0].name, dataSources).None?) || Unbound(code[1..], dataSources) by {
        if Unbound(code[1..], dataSources) {
          var j :| 0 <= j < |code[1..]| && code[1..][j].Identifier? && Dependency(code[1..][j].name, dataSources).None?;
          assert code[j + 1] == code[1..][j];
        }
        if Unbound(code, dataSources) {
          var j :| 0 <= j < |code| && code[j].Identifier? && Dependency(code[j].name, dataSources).None?;
          if j > 0 { assert code[1..][j - 1] == code[j]; }
        }
      }
      r
  }

  /** A generated expression reads as its pieces with the final ledger: every
      data source variable becomes its data source's scope name, whether the
      name was drawn now or earlier. */
  lemma {:induction false} ExpressionText(code: Code, dataSources: seq<DataSource>, acc: Out)
    ensures var r := ExpressionFrom(code, dataSources, acc);
      r.Ok? ==> NamedIn(code, [], dataSources, r.value.names)
                && r.value.text == acc.text + Rendered(code, [], dataSources, r.value.names)
    decreases |code|
  {
    var r := ExpressionFrom(code, dataSources, acc);
    if code != [] && r.Ok? {
      var next := ExpressionStep(code[0], dataSources, acc).value;
      assert r == ExpressionFrom(code[1..], dataSources, next);
      ExpressionText(code[1..], dataSources, next);
      assert NamedIn([code[0]], [], dataSources, next.names);
      RenderedStable([code[0]], [], dataSources, next.names, r.value.names);
      assert PieceText(code[0], [], dataSources, next.names) == PieceText(code[0], [], dataSources, r.value.names) by {
        assert Rendered([code[0]], [], dataSources, next.names) == PieceText(code[0], [], dataSources, next.names);
        assert Rendered([code[0]], [], dataSources, r.value.names) == PieceText(code[0], [], dataSources, r.value.names);
      }
      assert code == [code[0]] + code[1..];
      forall j | 0 <= j < |code| ensures PieceNamed(code[j], [], dataSources, r.value.names) {
        if j > 0 { assert code[j] == code[1..][j - 1]; }
      }
    }
  }

  /** When every data source of the expression is already named, nothing is
      drawn: the ledger comes back unchanged. */
  lemma {:induction false} ExpressionKeepsNames(code: Code, dataSources: seq<DataSource>, acc: Out)
    requires NamedIn(code, [], dataSources, acc.names)
    ensures var r := ExpressionFrom(code, dataSources, acc); r.Ok? ==> r.value.names == acc.names
    decreases |code|
  {
    if code != [] && ExpressionFrom(code, dataSources, acc).Ok? {
      assert PieceNamed(code[0], [], dataSources, acc.names);
      var next := ExpressionStep(code[0], dataSources, acc).value;
      assert next.names == acc.names;
      forall j | 0 <= j < |code[1..]| ensures PieceNamed(code[1..][j], [], dataSources, acc.names) {
        assert code[1..][j] == code[j + 1];
      }
      ExpressionKeepsNames(code[1..], dataSources, next);
    }
  }

  /** With every data source already named, each variable becomes exactly its
      recorded name. */
  lemma ExpressionOfNamed(code: Code, dataSources: seq<DataSource>, acc: Out)
    requires !Unbound(code, dataSources) && NamedIn(code, [], dataSources, acc.names)
    ensures ExpressionFrom(code, dataSources, acc) == Ok(Out(acc.text + Rendered(code, [], dataSources, acc.names), acc.names))
  {
    ExpressionText(code, dataSources, acc);
    ExpressionKeepsNames(code, dataSources, acc);
  }

  function ExpressionSpec(code: Code, dataSources: seq<DataSource>, names: Names): Result<Out, GenError>
  {
    ExpressionFrom(code, dataSources, Out("", names))
  }

  /** A method result matches a specification result: the same text and the
      same ledger on success, the same error on failure. */
  ghost predicate Emits(r: Result<string, GenError>, spec: Result<Out, GenError>, names: Names)
  {
    match spec
    case Ok(o) => r == Ok(o.text) && names == o.names
    case Err(e) => r == Err(e)
  }

  /** One iteration of the identifier-replacing loop. */
  method GeneratePiece(scope: Scope, piece: Piece, dataSources: seq<DataSource>, text: string)
    returns (r: Result<string, GenError>)
    requires scope.Valid()
    modifies scope
    ensures scope.Valid()
    ensures Emits(r, ExpressionStep(piece, dataSources, Out(text, old(scope.names))), scope.names)
  {
    match piece {
      case Verbatim(t) =>
        return Ok(text + t);
      case Identifier(identifier, _) =>
        var dep := Dependency(identifier, dataSources);
        if dep.None? {
          return Err(UnknownDependency(identifier));
        }
        var name := scope.GetName(dep.value.id, dep.value.name);
        return Ok(text + name);
    }
  }

  method GenerateExpression(scope: Scope, code: Code, dataSources: seq<DataSource>) returns (r: Result<string, GenError>)
    requires scope.Valid()
    modifies scope
    ensures scope.Valid()
    ensures Emits(r, ExpressionSpec(code, dataSources, old(scope.names)), scope.names)
  {
    var text := "";
    var i := 0;
    while i < |code|
      invariant 0 <= i <= |code| && scope.Valid()
      invariant ExpressionSpec(code, dataSources, old(scope.names)) == ExpressionFrom(code[i..], dataSources, Out(text, scope.names))
    {
      assert code[i..][1..] == code[i + 1..];
      var step := GeneratePiece(scope, code[i], dataSources, text);
      if step.Err? {
        return step;
      }
      text := step.value;
      i := i + 1;
    }
    return Ok(text);
  }
}
