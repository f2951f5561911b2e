/** The duplicate-key walk over a JSON token stream (`checkNoDuplicateKeys`). */
module JsonKeys {
  import opened Basics

  datatype Token = LBrace | RBrace | LBracket | RBracket | Str(text: string) | Scalar(text: string)

  datatype Json = Atom(token: Token) | Arr(items: seq<Json>) | Obj(members: seq<Member>)

  datatype Member = Member(key: string, value: Json)

  /** Atoms hold the tokens that are values by themselves. */
  predicate WellFormed(v: Json)
    decreases v
  {
    match v
    case Atom(t) => t.Str? || t.Scalar?
    case Arr(items) => forall i :: 0 <= i < |items| ==> WellFormed(items[i])
    case Obj(ms) => forall i :: 0 <= i < |ms| ==> WellFormed(ms[i].value)
  }

  /** Every object, at every depth, has distinct keys. */
  predicate Unique(v: Json)
    decreases v
  {
    match v
    case Atom(_) => true
    case Arr(items) => forall i :: 0 <= i < |items| ==> Unique(items[i])
    case Obj(ms) => Fresh(ms, {}) && forall i :: 0 <= i < |ms| ==> Unique(ms[i].value)
  }

  /** The keys are distinct and none has been seen. */
  predicate Fresh(ms: seq<Member>, seen: set<string>) {
    && (forall i :: 0 <= i < |ms| ==> ms[i].key !in seen)
    && forall i, j :: 0 <= i < j < |ms| ==> ms[i].key != ms[j].key
  }

  // ----- serialisation -----

  function Tokens(v: Json): (ts: seq<Token>)
    decreases v, 1
  {
    match v
    case Atom(t) => [t]
    case Arr(items) => [LBracket] + ItemTokens(items) + [RBracket]
    case Obj(ms) => [LBrace] + MemberTokens(ms) + [RBrace]
  }

  function ItemTokens(items: seq<Json>): seq<Token>
    decreases items, 0
  {
    if items == [] then [] else Tokens(items[0]) + ItemTokens(items[1..])
  }

  function MemberTokens(ms: seq<Member>): seq<Token>
    decreases ms, 0
  {
    if ms == [] then [] else [Str(ms[0].key)] + Tokens(ms[0].value) + MemberTokens(ms[1..])
  }

  // ----- the walk -----

  predicate More(ts: seq<Token>) {
    ts != [] && !ts[0].RBrace? && !ts[0].RBracket?
  }

  /** Walks one value off the front of `ts` and returns what is left. */
  function Walk(ts: seq<Token>): (r: Result<seq<Token>>)
    ensures r.Ok? ==> |r.value| < |ts|
    decreases |ts|, 0
  {
    if !More(ts) then Err
    else if ts[0].LBrace? then WalkMembers(ts[1..], {})
    else if ts[0].LBracket? then WalkItems(ts[1..])
    else Ok(ts[1..])
  }

  function WalkMembers(ts: seq<Token>, seen: set<string>): (r: Result<seq<Token>>)
    ensures r.Ok? ==> |r.value| < |ts|
    decreases |ts|, 1
  {
    if !More(ts) then
      if ts != [] && ts[0].RBrace? then Ok(ts[1..]) else Err
    else if !ts[0].Str? || ts[0].text in seen then Err
    else
      match Walk(ts[1..])
      case Err => Err
      case Ok(rest) => WalkMembers(rest, seen + {ts[0].text})
  }

  function WalkItems(ts: seq<Token>): (r: Result<seq<Token>>)
    ensures r.Ok? ==> |r.value| < |ts|
    decreases |ts|, 1
  {
    if !More(ts) then
      if ts != [] && ts[0].RBracket? then Ok(ts[1..]) else Err
    else
      match Walk(ts)
      case Err => Err
      case Ok(rest) => WalkItems(rest)
  }

  /** Accepts one value whose objects have distinct keys, and nothing after it. */
  predicate Accepts(ts: seq<Token>) {
    Walk(ts) == Ok([])
  }

  /** A token stream with a read position, as `json.Decoder` keeps it. */
  class Decoder {
    const tokens: seq<Token>
    var pos: nat

    ghost predicate Valid()
      reads this
    {
      pos <= |tokens|
    }

    constructor (tokens: seq<Token>)
      ensures this.tokens == tokens && pos == 0 && Valid()
    {
      this.tokens, pos := tokens, 0;
    }

    predicate HasMore()
      requires Valid()
      reads this
    {
      pos < |tokens| && !tokens[pos].RBrace? && !tokens[pos].RBracket?
    }

    /** The recursive walk; on success the position is just behind the value. */
    method WalkValue() returns (ok: bool)
      requires Valid()
      modifies this
      ensures Valid() && old(pos) <= pos
      ensures ok == Walk(tokens[old(pos)..]).Ok?
      ensures ok ==> Walk(tokens[old(pos)..]) == Ok(tokens[pos..]) && old(pos) < pos
      decreases |tokens| - pos
    {
      ghost var start := pos;
      if !HasMore() { return false; }
      var tok := tokens[pos];
      pos := pos + 1;
      assert tokens[start..][1..] == tokens[pos..];
      if tok.LBrace? {
        var seen: set<string> := {};
        while HasMore()
          invariant Valid() && start < pos
          invariant WalkMembers(tokens[pos..], seen) == Walk(tokens[start..])
          decreases |tokens| - pos
        {
          var key := tokens[pos];
          assert tokens[pos..][1..] == tokens[pos + 1..];
          pos := pos + 1;
          if !key.Str? || key.text in seen { return false; }
          seen := seen + {key.text};
          ok := WalkValue();
          if !ok { return; }
        }
        if pos == |tokens| || !tokens[pos].RBrace? { return false; }
        assert tokens[pos..][1..] == tokens[pos + 1..];
        pos := pos + 1;
      } else if tok.LBracket? {
        while HasMore()
          invariant Valid() && start < pos
          invariant WalkItems(tokens[pos..]) == Walk(tokens[start..])
          decreases |tokens| - pos
        {
          ok := WalkValue();
          if !ok { return; }
        }
        if pos == |tokens| || !tokens[pos].RBracket? { return false; }
        assert tokens[pos..][1..] == tokens[pos + 1..];
        pos := pos + 1;
      }
      ok := true;
    }
  }

  /** `checkNoDuplicateKeys`. */
  method CheckNoDuplicateKeys(tokens: seq<Token>) returns (ok: bool)
    ensures ok == Accepts(tokens)
  {
    var d := new Decoder(tokens);
    ok := d.WalkValue();
    assert tokens[0..] == tokens;
    ok := ok && d.pos == |tokens|;
  }

  // ----- what the walk accepts -----

  /** Walking a serialised value consumes exactly that value, and succeeds exactly when keys are distinct. */
  lemma {:induction false} WalkTokens(v: Json, rest: seq<Token>)
    requires WellFormed(v)
    ensures Walk(Tokens(v) + rest) == if Unique(v) then Ok(rest) else Err
    decreases v, 1
  {
    var ts := Tokens(v) + rest;
    match v
    case Atom(t) => assert ts[1..] == rest;
    case Arr(items) =>
      assert ts[1..] == ItemTokens(items) + ([RBracket] + rest);
      WalkItemTokens(items, rest);
    case Obj(ms) =>
      assert ts[1..] == MemberTokens(ms) + ([RBrace] + rest);
      WalkMemberTokens(ms, rest, {});
  }

  lemma {:induction false} WalkItemTokens(items: seq<Json>, rest: seq<Token>)
    requires forall i :: 0 <= i < |items| ==> WellFormed(items[i])
    ensures WalkItems(ItemTokens(items) + ([RBracket] + rest))
         == if forall i :: 0 <= i < |items| ==> Unique(items[i]) then Ok(rest) else Err
    decreases items, 0
  {
    var ts := ItemTokens(items) + ([RBracket] + rest);
    if items == [] {
      assert ts == [RBracket] + rest && ts[1..] == rest;
    } else {
      var tail := ItemTokens(items[1..]) + ([RBracket] + rest);
      assert ts == Tokens(items[0]) + tail;
      WalkTokens(items[0], tail);
      WalkItemTokens(items[1..], rest);
      assert items == [items[0]] + items[1..];
    }
  }

  lemma {:induction false} WalkMemberTokens(ms: seq<Member>, rest: seq<Token>, seen: set<string>)
    requires forall i :: 0 <= i < |ms| ==> WellFormed(ms[i].value)
    ensures WalkMembers(MemberTokens(ms) + ([RBrace] + rest), seen)
         == if Fresh(ms, seen) && forall i :: 0 <= i < |ms| ==> Unique(ms[i].value) then Ok(rest) else Err
    decreases ms, 0
  {
    var ts := MemberTokens(ms) + ([RBrace] + rest);
    if ms == [] {
      assert ts == [RBrace] + rest && ts[1..] == rest;
    } else {
      var tail := MemberTokens(ms[1..]) + ([RBrace] + rest);
      assert ts == [Str(ms[0].key)] + Tokens(ms[0].value) + tail;
      assert ts[1..] == Tokens(ms[0].value) + tail;
      WalkTokens(ms[0].value, tail);
      WalkMemberTokens(ms[1..], rest, seen + {ms[0].key});
      FreshStep(ms, seen);
    }
  }

  lemma FreshStep(ms: seq<Member>, seen: set<string>)
    requires ms != []
    ensures Fresh(ms, seen) <==> ms[0].key !in seen && Fresh(ms[1..], seen + {ms[0].key})
  {
    assert ms == [ms[0]] + ms[1..];
    if ms[0].key !in seen && Fresh(ms[1..], seen + {ms[0].key}) {
      assert forall i :: 0 < i < |ms| ==> ms[i] == ms[1..][i - 1];
    }
  }

  // ----- and nothing else -----

  lemma {:induction false} WalkFindsValue(ts: seq<Token>) returns (v: Json)
    requires Walk(ts).Ok?
    ensures WellFormed(v) && Unique(v) && ts == Tokens(v) + Walk(ts).value
    decreases |ts|, 0
  {
    if ts[0].LBrace? {
      var ms := MembersFound(ts[1..], {});
      v := Obj(ms);
    } else if ts[0].LBracket? {
      var items := ItemsFound(ts[1..]);
      v := Arr(items);
    } else {
      v := Atom(ts[0]);
    }
  }

  lemma {:induction false} ItemsFound(ts: seq<Token>) returns (items: seq<Json>)
    requires WalkItems(ts).Ok?
    ensures forall i :: 0 <= i < |items| ==> WellFormed(items[i]) && Unique(items[i])
    ensures ts == ItemTokens(items) + [RBracket] + WalkItems(ts).value
    decreases |ts|, 1
  {
    items := [];
    if More(ts) {
      var first := WalkFindsValue(ts);
      var others := ItemsFound(Walk(ts).value);
      items := [first] + others;
      assert items[1..] == others;
    }
  }

  lemma {:induction false} MembersFound(ts: seq<Token>, seen: set<string>) returns (ms: seq<Member>)
    requires WalkMembers(ts, seen).Ok?
    ensures Fresh(ms, seen) && forall i :: 0 <= i < |ms| ==> WellFormed(ms[i].value) && Unique(ms[i].value)
    ensures ts == MemberTokens(ms) + [RBrace] + WalkMembers(ts, seen).value
    decreases |ts|, 1
  {
    ms := [];
    if More(ts) {
      var first := WalkFindsValue(ts[1..]);
      var others := MembersFound(Walk(ts[1..]).value, seen + {ts[0].text});
      ms := [Member(ts[0].text, first)] + others;
      assert ms[1..] == others;
      FreshStep(ms, seen);
    }
  }

  /** The walk accepts a token stream exactly when it serialises one value with distinct keys everywhere. */
  lemma AcceptsExactly(ts: seq<Token>)
    ensures Accepts(ts) <==> exists v :: WellFormed(v) && Unique(v) && ts == Tokens(v)
  {
    if Accepts(ts) {
      var v := WalkFindsValue(ts);
      assert ts == Tokens(v);
    }
    if v :| WellFormed(v) && Unique(v) && ts == Tokens(v) {
      WalkTokens(v, []);
      assert Tokens(v) + [] == ts;
    }
  }

  /** A serialised value followed by anything is accepted only with distinct keys and nothing after it. */
  lemma NothingAfter(v: Json, extra: seq<Token>)
    requires WellFormed(v)
    ensures Accepts(Tokens(v) + extra) <==> Unique(v) && extra == []
  {
    WalkTokens(v, extra);
  }
}
