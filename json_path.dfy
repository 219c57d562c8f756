/** The json-path query compiler: it turns the token stream of an expression
    such as `foo.bar` into a query, a list of msgpack filters that starts with
    the root-collection filter and continues with one map-value filter per
    name. It is a two-mode machine: in LITERAL mode it expects a name, in
    OPERATOR mode a child operator.

    The tokenizer is not part of this model; `Compile` takes the tokens it
    would deliver to the visitor, in order. */
module JsonPath {
  import opened Common

  newtype byte = x: int | 0 <= x < 256

  /** The token types the visitor receives; the ones the compiler does not
      know are kept with their enum constant's name. */
  datatype TokenType = StartInput | EndInput | Literal | ChildOperator | OtherToken(name: string)

  function TypeName(t: TokenType): string
  {
    match t
    case StartInput => "START_INPUT"
    case EndInput => "END_INPUT"
    case Literal => "LITERAL"
    case ChildOperator => "CHILD_OPERATOR"
    case OtherToken(name) => name
  }

  /** A token: its type, its offset in the expression and its bytes. */
  datatype Token = Token(kind: TokenType, offset: nat, value: seq<byte>)

  /** The filters a query may hold; the compiler itself only ever emits the
      first two. */
  datatype Filter = RootCollection | MapValue(key: seq<byte>) | ArrayIndex | Wildcard

  function FilterId(f: Filter): (id: nat)
    ensures id < 4
  {
    match f
    case RootCollection => 0
    case MapValue(_) => 1
    case ArrayIndex => 2
    case Wildcard => 3
  }

  datatype Invalidation = Invalidation(position: nat, message: string)

  datatype Query = Query(filters: seq<Filter>, variableName: Option<seq<byte>>, error: Option<Invalidation>)
  {
    predicate IsValid() { error.None? }
  }

  datatype ParsingMode = OperatorMode | LiteralMode

  function UnexpectedToken(t: TokenType): string
  {
    "Unexpected json-path token " + TypeName(t)
  }

  /** The query compile starts from: the root filter, no variable name. */
  function FreshQuery(): Query
  {
    Query([RootCollection], None, None)
  }

  /** What visit does with one token, given the mode and the query so far. */
  function Visit(mode: ParsingMode, q: Query, t: Token): (ParsingMode, Query)
  {
    if !q.IsValid() then (mode, q)
    else if t.kind == StartInput || t.kind == EndInput then (mode, q)
    else
      match mode
      case OperatorMode =>
        if t.kind == ChildOperator then (LiteralMode, q)
        else (mode, q.(error := Some(Invalidation(t.offset, UnexpectedToken(t.kind)))))
      case LiteralMode =>
        if t.kind == Literal then
          var name := if |q.filters| == 1 then Some(t.value) else q.variableName;
          (OperatorMode, q.(filters := q.filters + [MapValue(t.value)], variableName := name))
        else (mode, q.(error := Some(Invalidation(t.offset, UnexpectedToken(t.kind)))))
  }

  /** The mode and query after visiting all the tokens, from a fresh query in
      LITERAL mode. */
  function Compiled(ts: seq<Token>): (ParsingMode, Query)
  {
    if |ts| == 0 then (LiteralMode, FreshQuery())
    else
      var r := Compiled(ts[..|ts| - 1]);
      Visit(r.0, r.1, ts[|ts| - 1])
  }

  // ---------------------------------------------------------------------------
  // An independent description of the accepted expressions
  // ---------------------------------------------------------------------------

  /** The tokens that are not ignored. */
  function Significant(ts: seq<Token>): (sig: seq<Token>)
    ensures |sig| <= |ts|
  {
    if |ts| == 0 then []
    else
      var t := ts[|ts| - 1];
      Significant(ts[..|ts| - 1]) + (if t.kind == StartInput || t.kind == EndInput then [] else [t])
  }

  /** Position j breaks the alternation name, operator, name, ... */
  predicate Misplaced(sig: seq<Token>, j: nat)
    requires j < |sig|
  {
    if j % 2 == 0 then sig[j].kind != Literal else sig[j].kind != ChildOperator
  }

  /** The significant tokens read `name (. name)* .?`. */
  predicate Alternates(sig: seq<Token>)
  {
    forall j :: 0 <= j < |sig| ==> !Misplaced(sig, j)
  }

  /** The query of an alternating token sequence: the root, then one
      map-value filter per name, the first name being the variable. */
  ghost predicate ValidShape(sig: seq<Token>, mode: ParsingMode, q: Query)
  {
    && q.IsValid()
    && (mode == LiteralMode <==> |sig| % 2 == 0)
    && |q.filters| == 1 + (|sig| + 1) / 2
    && q.filters[0] == RootCollection
    && (forall k :: 0 <= k < (|sig| + 1) / 2 ==> 2 * k < |sig| && q.filters[k + 1] == MapValue(sig[2 * k].value))
    && (q.variableName.Some? <==> |sig| > 0)
    && (|sig| > 0 ==> q.variableName == Some(sig[0].value))
  }

  /** The invalid query of a sequence that breaks the alternation: it is
      invalidated at the first misplaced token, with that token's type. */
  ghost predicate InvalidShape(sig: seq<Token>, q: Query)
  {
    && exists j :: 0 <= j < |sig| && Misplaced(sig, j) && (forall i :: 0 <= i < j ==> !Misplaced(sig, i))
         && q.error == Some(Invalidation(sig[j].offset, UnexpectedToken(sig[j].kind)))
  }

  lemma SignificantOfAppend(ts: seq<Token>)
    requires |ts| > 0
    ensures var t := ts[|ts| - 1];
      Significant(ts) == Significant(ts[..|ts| - 1]) + (if t.kind == StartInput || t.kind == EndInput then [] else [t])
  {
  }

  /** A name or an operator where the alternation expects it extends the
      accepted shape. */
  lemma AcceptedStep(sp: seq<Token>, mode: ParsingMode, q: Query, t: Token)
    requires ValidShape(sp, mode, q)
    requires t.kind != StartInput && t.kind != EndInput
    requires !Misplaced(sp + [t], |sp|)
    ensures ValidShape(sp + [t], Visit(mode, q, t).0, Visit(mode, q, t).1)
  {
    var sig := sp + [t];
    var n := |sp|;
    var q' := Visit(mode, q, t).1;
    if n % 2 == 0 {
      assert mode == LiteralMode && t.kind == Literal;
      assert q'.filters == q.filters + [MapValue(t.value)];
      forall k | 0 <= k < (|sig| + 1) / 2
        ensures 2 * k < |sig| && q'.filters[k + 1] == MapValue(sig[2 * k].value)
      {
        if k < (n + 1) / 2 {
          assert q'.filters[k + 1] == q.filters[k + 1];
          assert sig[2 * k] == sp[2 * k];
        } else {
          assert 2 * k == n;
        }
      }
    } else {
      assert mode == OperatorMode && t.kind == ChildOperator;
      assert q' == q;
      forall k | 0 <= k < (|sig| + 1) / 2
        ensures 2 * k < |sig| && q'.filters[k + 1] == MapValue(sig[2 * k].value)
      {
        assert sig[2 * k] == sp[2 * k];
      }
    }
  }

  /** A misplaced token invalidates an accepted query, at that token. */
  lemma RejectedStep(sp: seq<Token>, mode: ParsingMode, q: Query, t: Token)
    requires ValidShape(sp, mode, q) && Alternates(sp)
    requires t.kind != StartInput && t.kind != EndInput
    requires Misplaced(sp + [t], |sp|)
    ensures !Alternates(sp + [t])
    ensures !Visit(mode, q, t).1.IsValid() && InvalidShape(sp + [t], Visit(mode, q, t).1)
  {
    var sig := sp + [t];
    var n := |sp|;
    assert forall i :: 0 <= i < n ==> sig[i] == sp[i] && !Misplaced(sp, i);
    assert forall i :: 0 <= i < n ==> !Misplaced(sig, i);
    assert Visit(mode, q, t).1.error == Some(Invalidation(sig[n].offset, UnexpectedToken(sig[n].kind)));
  }

  /** A rejected sequence stays rejected, with the same first misplaced token,
      whatever follows. */
  lemma RejectedStaysRejected(sp: seq<Token>, q: Query, more: seq<Token>)
    requires !Alternates(sp) && InvalidShape(sp, q)
    ensures !Alternates(sp + more) && InvalidShape(sp + more, q)
  {
    var sig := sp + more;
    var j :| 0 <= j < |sp| && Misplaced(sp, j) && (forall i :: 0 <= i < j ==> !Misplaced(sp, i))
             && q.error == Some(Invalidation(sp[j].offset, UnexpectedToken(sp[j].kind)));
    assert forall i :: 0 <= i <= j ==> sig[i] == sp[i] && Misplaced(sig, i) == Misplaced(sp, i);
    assert 0 <= j < |sig| && Misplaced(sig, j) && (forall i :: 0 <= i < j ==> !Misplaced(sig, i))
           && q.error == Some(Invalidation(sig[j].offset, UnexpectedToken(sig[j].kind)));
  }

  /** The compiler accepts exactly the alternating token sequences; the query
      of an accepted one holds one map-value filter per name, and that of a
      rejected one names the first misplaced token. */
  lemma {:induction false} CompiledShape(ts: seq<Token>)
    ensures var r := Compiled(ts); var sig := Significant(ts);
      && (Alternates(sig) ==> ValidShape(sig, r.0, r.1))
      && (!Alternates(sig) ==> !r.1.IsValid() && InvalidShape(sig, r.1))
  {
    if |ts| > 0 {
      var p := ts[..|ts| - 1];
      var t := ts[|ts| - 1];
      CompiledShape(p);
      var rp := Compiled(p);
      var sp := Significant(p);
      SignificantOfAppend(ts);
      assert Compiled(ts) == Visit(rp.0, rp.1, t);
      if !Alternates(sp) {
        if t.kind == StartInput || t.kind == EndInput {
          RejectedStaysRejected(sp, rp.1, []);
          assert sp + [] == sp;
        } else {
          RejectedStaysRejected(sp, rp.1, [t]);
        }
      } else if t.kind == StartInput || t.kind == EndInput {
        assert Significant(ts) == sp;
      } else if Misplaced(sp + [t], |sp|) {
        RejectedStep(sp, rp.0, rp.1, t);
      } else {
        AcceptedStep(sp, rp.0, rp.1, t);
        var sig := sp + [t];
        forall j | 0 <= j < |sig|
          ensures !Misplaced(sig, j)
        {
          if j < |sp| {
            assert sig[j] == sp[j];
            assert !Misplaced(sp, j);
          }
        }
      }
    }
  }

  /** The compiler emits only the root-collection filter, first, and
      map-value filters: filter ids 0 and 1. */
  lemma CompiledFilterIds(ts: seq<Token>)
    ensures var q := Compiled(ts).1;
      |q.filters| >= 1 && q.filters[0] == RootCollection
      && forall k :: 1 <= k < |q.filters| ==> q.filters[k].MapValue? && FilterId(q.filters[k]) == 1
  {
    CompiledShape(ts);
    var sig := Significant(ts);
    var q := Compiled(ts).1;
    if Alternates(sig) {
      forall k | 1 <= k < |q.filters|
        ensures q.filters[k].MapValue?
      {
        assert q.filters[(k - 1) + 1] == MapValue(sig[2 * (k - 1)].value);
      }
    } else {
      FiltersBeforeInvalidation(ts);
    }
  }

  /** Apart from the root, every filter the visitor appends is a map-value
      filter, valid or not. */
  lemma {:induction false} FiltersBeforeInvalidation(ts: seq<Token>)
    ensures var q := Compiled(ts).1;
      |q.filters| >= 1 && q.filters[0] == RootCollection
      && forall k :: 1 <= k < |q.filters| ==> q.filters[k].MapValue?
  {
    if |ts| > 0 {
      FiltersBeforeInvalidation(ts[..|ts| - 1]);
    }
  }

  /** Once the query is invalid, further tokens change nothing. */
  lemma {:induction false} InvalidStaysInvalid(ts: seq<Token>, more: seq<Token>)
    requires !Compiled(ts).1.IsValid()
    ensures Compiled(ts + more) == Compiled(ts)
    decreases |more|
  {
    if |more| > 0 {
      var front := more[..|more| - 1];
      assert (ts + more)[..|ts + more| - 1] == ts + front;
      InvalidStaysInvalid(ts, front);
    } else {
      assert ts + more == ts;
    }
  }

  /** `foo.bar` between START and END compiles to root, foo, bar, with foo as
      the variable name. */
  lemma DottedPathExample(foo: seq<byte>, bar: seq<byte>)
    ensures var ts := [Token(StartInput, 0, []), Token(Literal, 0, foo), Token(ChildOperator, 3, []),
                       Token(Literal, 4, bar), Token(EndInput, 7, [])];
      Compiled(ts).1 == Query([RootCollection, MapValue(foo), MapValue(bar)], Some(foo), None)
  {
    var ts := [Token(StartInput, 0, []), Token(Literal, 0, foo), Token(ChildOperator, 3, []),
               Token(Literal, 4, bar), Token(EndInput, 7, [])];
    assert ts[..1][..0] == [];
    assert Compiled(ts[..1]) == (LiteralMode, FreshQuery());
    assert ts[..2][..1] == ts[..1];
    assert [RootCollection] + [MapValue(foo)] == [RootCollection, MapValue(foo)];
    assert Compiled(ts[..2]) == (OperatorMode, Query([RootCollection, MapValue(foo)], Some(foo), None));
    assert ts[..3][..2] == ts[..2];
    assert Compiled(ts[..3]) == (LiteralMode, Query([RootCollection, MapValue(foo)], Some(foo), None));
    assert ts[..4][..3] == ts[..3];
    assert [RootCollection, MapValue(foo)] + [MapValue(bar)] == [RootCollection, MapValue(foo), MapValue(bar)];
    assert Compiled(ts[..4]) == (OperatorMode, Query([RootCollection, MapValue(foo), MapValue(bar)], Some(foo), None));
    assert ts[..4] == ts[..|ts| - 1];
  }

  /** The compiler object: the mode and the query under construction change
      with every token. */
  class JsonPathQueryCompiler {
    var mode: ParsingMode
    var currentQuery: Option<Query>

    constructor()
      ensures currentQuery == None
    {
      mode := LiteralMode;
      currentQuery := None;
    }

    /** visit: one token. */
    method VisitToken(t: Token)
      requires currentQuery.Some?
      modifies this
      ensures currentQuery.Some?
      ensures (mode, currentQuery.value) == Visit(old(mode), old(currentQuery.value), t)
    {
      var q := currentQuery.value;
      if !q.IsValid() {
        return;
      }
      if mode == OperatorMode {
        match t.kind {
          case ChildOperator =>
            mode := LiteralMode;
          case StartInput =>
          case EndInput =>
          case _ =>
            currentQuery := Some(q.(error := Some(Invalidation(t.offset, UnexpectedToken(t.kind)))));
        }
      } else {
        match t.kind {
          case Literal =>
            if |q.filters| == 1 {
              q := q.(variableName := Some(t.value));
            }
            q := q.(filters := q.filters + [MapValue(t.value)]);
            currentQuery := Some(q);
            mode := OperatorMode;
          case StartInput =>
          case EndInput =>
          case _ =>
            currentQuery := Some(q.(error := Some(Invalidation(t.offset, UnexpectedToken(t.kind)))));
        }
      }
    }

    /** compile: a fresh query, LITERAL mode, every token visited; the
        compiler lets go of the query before returning it. */
    method Compile(tokens: seq<Token>) returns (q: Query)
      modifies this
      ensures q == Compiled(tokens).1 && mode == Compiled(tokens).0
      ensures currentQuery == None
    {
      currentQuery := Some(FreshQuery());
      mode := LiteralMode;
      var i := 0;
      while i < |tokens|
        invariant 0 <= i <= |tokens|
        invariant currentQuery.Some?
        invariant (mode, currentQuery.value) == Compiled(tokens[..i])
        decreases |tokens| - i
      {
        VisitToken(tokens[i]);
        assert tokens[..i + 1][..i] == tokens[..i];
        i := i + 1;
      }
      assert tokens[..i] == tokens;
      q := currentQuery.value;
      currentQuery := None;
    }
  }
}
