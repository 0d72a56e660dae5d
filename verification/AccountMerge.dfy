/**
 An account is stored twice: confirmed, and with the blocks not yet confirmed.  GetAccountMeta
 merges the two records; DeleteTokenMeta* removes one token from a record by shifting the slice
 it is ranging over.
 */
module AccountMerge {
  import opened Ring
  import opened Blocks
  import opened Accounts

  datatype Coins = Coins(balance: Balance, vote: Balance, network: Balance, storage: Balance, oracle: Balance)

  datatype AccountMeta = AccountMeta(address: Address, coins: Coins, tokens: seq<TokenMeta>)

  ghost predicate DistinctTypes(tokens: seq<TokenMeta>) {
    forall i, j :: 0 <= i < j < |tokens| ==> tokens[i].typ != tokens[j].typ
  }

  /** AccountMeta.Token: the first record of a type. */
  function Find(tokens: seq<TokenMeta>, typ: Token): Option<TokenMeta> {
    if tokens == [] then None
    else if tokens[0].typ == typ then Some(tokens[0])
    else Find(tokens[1..], typ)
  }

  /** Of two records of a type, the one with more blocks; the unconfirmed one on a tie. */
  function Best(unconfirmed: Option<TokenMeta>, confirmed: Option<TokenMeta>): Option<TokenMeta> {
    if unconfirmed.None? then confirmed
    else if confirmed.None? then unconfirmed
    else if unconfirmed.value.blockCount < confirmed.value.blockCount then confirmed
    else unconfirmed
  }

  /** The better record is one of the two, has as many blocks as either, and is the unconfirmed one on a tie. */
  lemma BestIs(unconfirmed: Option<TokenMeta>, confirmed: Option<TokenMeta>)
    ensures var r := Best(unconfirmed, confirmed);
            && (r == unconfirmed || r == confirmed)
            && (r.None? ==> unconfirmed.None? && confirmed.None?)
            && (unconfirmed.Some? ==> r.value.blockCount >= unconfirmed.value.blockCount)
            && (confirmed.Some? ==> r.value.blockCount >= confirmed.value.blockCount)
            && (unconfirmed.Some? && r != unconfirmed ==> r.value.blockCount > unconfirmed.value.blockCount)
  {
  }

  /** The confirmed chain token is ahead of the unconfirmed one. */
  predicate ChainTokenAhead(unconfirmed: seq<TokenMeta>, confirmed: seq<TokenMeta>, chainToken: Token) {
    var u, c := Find(unconfirmed, chainToken), Find(confirmed, chainToken);
    u.Some? && c.Some? && u.value.blockCount < c.value.blockCount
  }

  /** Confirmed records of types the unconfirmed record lacks, in order. */
  function ConfirmedOnly(unconfirmed: seq<TokenMeta>, confirmed: seq<TokenMeta>): seq<TokenMeta> {
    if confirmed == [] then []
    else
      var last := confirmed[|confirmed| - 1];
      ConfirmedOnly(unconfirmed, confirmed[..|confirmed| - 1]) + if Find(unconfirmed, last.typ).None? then [last] else []
  }

  /** The selection goes record by record, in order. */
  lemma {:induction false} ConfirmedOnlyConcat(unconfirmed: seq<TokenMeta>, a: seq<TokenMeta>, b: seq<TokenMeta>)
    ensures ConfirmedOnly(unconfirmed, a + b) == ConfirmedOnly(unconfirmed, a) + ConfirmedOnly(unconfirmed, b)
    decreases |b|
  {
    if b == [] {
      assert a + b == a;
    } else {
      var n := |b| - 1;
      assert (a + b)[..|a + b| - 1] == a + b[..n];
      ConfirmedOnlyConcat(unconfirmed, a, b[..n]);
    }
  }

  lemma {:induction false} ConfirmedOnlyOfOne(unconfirmed: seq<TokenMeta>, t: TokenMeta)
    ensures ConfirmedOnly(unconfirmed, [t]) ==
            if exists i :: 0 <= i < |unconfirmed| && unconfirmed[i].typ == t.typ then [] else [t]
  {
    FindIs(unconfirmed, t.typ);
    assert [t][..0] == [];
  }

  /** The unconfirmed types come first and keep their places; the confirmed-only records follow. */
  ghost predicate InOrder(merged: seq<TokenMeta>, unconfirmed: seq<TokenMeta>, confirmed: seq<TokenMeta>) {
    && |unconfirmed| <= |merged|
    && (forall i :: 0 <= i < |unconfirmed| ==> merged[i].typ == unconfirmed[i].typ)
    && merged[|unconfirmed|..] == ConfirmedOnly(unconfirmed, confirmed)
  }

  lemma {:induction false} FindIs(tokens: seq<TokenMeta>, typ: Token)
    ensures Find(tokens, typ).Some? <==> exists i :: 0 <= i < |tokens| && tokens[i].typ == typ
    ensures Find(tokens, typ).Some? ==> Find(tokens, typ).value in tokens && Find(tokens, typ).value.typ == typ
    decreases |tokens|
  {
    if tokens != [] {
      FindIs(tokens[1..], typ);
      if tokens[0].typ != typ && exists i :: 0 <= i < |tokens| && tokens[i].typ == typ {
        var i :| 0 <= i < |tokens| && tokens[i].typ == typ;
        assert tokens[1..][i - 1].typ == typ;
      }
    }
  }

  /** With distinct types the record found at an index is that record. */
  lemma {:induction false} FindAt(tokens: seq<TokenMeta>, i: nat)
    requires DistinctTypes(tokens) && i < |tokens|
    ensures Find(tokens, tokens[i].typ) == Some(tokens[i])
    decreases |tokens|
  {
    if i > 0 {
      FindAt(tokens[1..], i - 1);
    }
  }

  lemma {:induction false} FindAppend(tokens: seq<TokenMeta>, t: TokenMeta, typ: Token)
    ensures Find(tokens + [t], typ) ==
            if Find(tokens, typ).Some? then Find(tokens, typ) else if t.typ == typ then Some(t) else None
    decreases |tokens|
  {
    if tokens != [] {
      assert (tokens + [t])[1..] == tokens[1..] + [t];
      FindAppend(tokens[1..], t, typ);
    }
  }

  /** Replacing a record by another of its type. */
  lemma {:induction false} FindReplace(tokens: seq<TokenMeta>, i: nat, t: TokenMeta, typ: Token)
    requires DistinctTypes(tokens) && i < |tokens| && t.typ == tokens[i].typ
    ensures Find(tokens[i := t], typ) == if typ == t.typ then Some(t) else Find(tokens, typ)
    decreases |tokens|
  {
    if i > 0 {
      assert tokens[i := t][1..] == tokens[1..][i - 1 := t];
      FindReplace(tokens[1..], i - 1, t, typ);
    }
  }

  /** Index of the first record of a type, or the number of records. */
  function IndexOf(tokens: seq<TokenMeta>, typ: Token): (i: nat)
    ensures i <= |tokens|
    ensures i < |tokens| ==> tokens[i].typ == typ
    ensures forall j :: 0 <= j < i ==> tokens[j].typ != typ
  {
    if tokens == [] || tokens[0].typ == typ then 0 else 1 + IndexOf(tokens[1..], typ)
  }

  lemma {:induction false} NoneWhenAbsent(tokens: seq<TokenMeta>, typ: Token)
    requires forall j :: 0 <= j < |tokens| ==> tokens[j].typ != typ
    ensures Find(tokens, typ) == None
  {
    FindIs(tokens, typ);
  }

  /** A type the unconfirmed record holds sits in its own part of the merged one. */
  lemma {:induction false} OwnPlace(merged: seq<TokenMeta>, unconfirmed: seq<TokenMeta>, typ: Token, i: nat)
    requires DistinctTypes(merged) && i < |merged| && merged[i].typ == typ && Find(unconfirmed, typ).Some?
    requires |unconfirmed| <= |merged| && forall j :: 0 <= j < |unconfirmed| ==> merged[j].typ == unconfirmed[j].typ
    ensures i < |unconfirmed|
  {
    FindIs(unconfirmed, typ);
    var j :| 0 <= j < |unconfirmed| && unconfirmed[j].typ == typ;
    assert merged[j].typ == merged[i].typ;
  }

  ghost predicate FindsBest(tokens: seq<TokenMeta>, unconfirmed: seq<TokenMeta>, confirmed: seq<TokenMeta>) {
    forall typ :: Find(tokens, typ) == Best(Find(unconfirmed, typ), Find(confirmed, typ))
  }

  /** r is the merge of am with the first confirmed records. */
  ghost predicate Merges(r: AccountMeta, am: AccountMeta, confirmed: seq<TokenMeta>, coins: Coins, chainToken: Token) {
    && DistinctTypes(r.tokens) && InOrder(r.tokens, am.tokens, confirmed)
    && FindsBest(r.tokens, am.tokens, confirmed)
    && r.address == am.address
    && r.coins == if ChainTokenAhead(am.tokens, confirmed, chainToken) then coins else am.coins
  }

  /** One confirmed record: copied over an older unconfirmed one, appended when there is none. */
  function MergedOne(m: AccountMeta, v: TokenMeta, coins: Coins, chainToken: Token): AccountMeta {
    var i := IndexOf(m.tokens, v.typ);
    if i == |m.tokens| then m.(tokens := m.tokens + [v])
    else if m.tokens[i].blockCount < v.blockCount then
      m.(tokens := m.tokens[i := v], coins := if v.typ == chainToken then coins else m.coins)
    else m
  }

  /** All confirmed records, in order. */
  function MergedAll(am: AccountMeta, confirmed: seq<TokenMeta>, coins: Coins, chainToken: Token): AccountMeta {
    if confirmed == [] then am
    else
      MergedOne(MergedAll(am, confirmed[..|confirmed| - 1], coins, chainToken), confirmed[|confirmed| - 1], coins, chainToken)
  }

  lemma {:induction false} MergedAllStep(am: AccountMeta, confirmed: seq<TokenMeta>, n: nat, coins: Coins, chainToken: Token)
    requires n < |confirmed|
    ensures MergedAll(am, confirmed[..n + 1], coins, chainToken) ==
            MergedOne(MergedAll(am, confirmed[..n], coins, chainToken), confirmed[n], coins, chainToken)
  {
    assert confirmed[..n + 1][..n] == confirmed[..n];
  }

  /** One more confirmed record, of a type not seen yet. */
  lemma {:induction false} DoneWith(am: AccountMeta, done: seq<TokenMeta>, v: TokenMeta)
    requires Find(done, v.typ) == None
    ensures forall typ :: Find(done + [v], typ) == if typ == v.typ then Some(v) else Find(done, typ)
    ensures ConfirmedOnly(am.tokens, done + [v]) ==
            ConfirmedOnly(am.tokens, done) + if Find(am.tokens, v.typ).None? then [v] else []
  {
    forall typ { FindAppend(done, v, typ); }
    assert (done + [v])[..|done|] == done;
  }

  /** The record met in the merge is the unconfirmed one, in its own place. */
  lemma {:induction false} MetRecord(m: AccountMeta, v: TokenMeta, coins: Coins, chainToken: Token, am: AccountMeta, done: seq<TokenMeta>)
    requires Merges(m, am, done, coins, chainToken) && Find(done, v.typ) == None
    ensures var i := IndexOf(m.tokens, v.typ);
            if i < |m.tokens| then Find(am.tokens, v.typ) == Some(m.tokens[i]) && i < |am.tokens|
            else Find(am.tokens, v.typ) == None
  {
    var i := IndexOf(m.tokens, v.typ);
    if i < |m.tokens| {
      FindAt(m.tokens, i);
      assert Find(m.tokens, v.typ) == Best(Find(am.tokens, v.typ), None);
      OwnPlace(m.tokens, am.tokens, v.typ, i);
    } else {
      NoneWhenAbsent(m.tokens, v.typ);
      assert Find(m.tokens, v.typ) == Best(Find(am.tokens, v.typ), None);
    }
  }

  lemma {:induction false} DistinctAppend(tokens: seq<TokenMeta>, v: TokenMeta)
    requires DistinctTypes(tokens) && IndexOf(tokens, v.typ) == |tokens|
    ensures DistinctTypes(tokens + [v])
  {
  }

  lemma {:induction false} ReplaceFinds(m: AccountMeta, v: TokenMeta, coins: Coins, chainToken: Token, am: AccountMeta,
                                        done: seq<TokenMeta>, typ: Token)
    requires Merges(m, am, done, coins, chainToken) && Find(done, v.typ) == None
    requires IndexOf(m.tokens, v.typ) < |m.tokens|
    ensures Find(MergedOne(m, v, coins, chainToken).tokens, typ) == Best(Find(am.tokens, typ), Find(done + [v], typ))
  {
    MetRecord(m, v, coins, chainToken, am, done);
    FindAppend(done, v, typ);
    FindReplace(m.tokens, IndexOf(m.tokens, v.typ), v, typ);
    assert Find(m.tokens, typ) == Best(Find(am.tokens, typ), Find(done, typ));
  }

  /** Replacing a record by another of its type, in the part of the unconfirmed ones. */
  lemma {:induction false} ReplaceInOrder(tokens: seq<TokenMeta>, i: nat, v: TokenMeta, unconfirmed: seq<TokenMeta>, confirmed: seq<TokenMeta>)
    requires InOrder(tokens, unconfirmed, confirmed) && DistinctTypes(tokens)
    requires i < |unconfirmed| && v.typ == tokens[i].typ
    ensures InOrder(tokens[i := v], unconfirmed, confirmed) && DistinctTypes(tokens[i := v])
  {
    assert tokens[i := v][|unconfirmed|..] == tokens[|unconfirmed|..];
  }

  lemma {:induction false} ReplaceMerges(m: AccountMeta, v: TokenMeta, coins: Coins, chainToken: Token, am: AccountMeta, done: seq<TokenMeta>)
    requires Merges(m, am, done, coins, chainToken) && Find(done, v.typ) == None
    requires IndexOf(m.tokens, v.typ) < |m.tokens|
    ensures Merges(MergedOne(m, v, coins, chainToken), am, done + [v], coins, chainToken)
  {
    var r := MergedOne(m, v, coins, chainToken);
    MetRecord(m, v, coins, chainToken, am, done);
    DoneWith(am, done, v);
    assert FindsBest(r.tokens, am.tokens, done + [v]) by {
      forall typ ensures Find(r.tokens, typ) == Best(Find(am.tokens, typ), Find(done + [v], typ)) {
        ReplaceFinds(m, v, coins, chainToken, am, done, typ);
      }
    }
    ReplaceInOrder(m.tokens, IndexOf(m.tokens, v.typ), v, am.tokens, done);
  }

  lemma {:induction false} AppendFinds(m: AccountMeta, v: TokenMeta, coins: Coins, chainToken: Token, am: AccountMeta, done: seq<TokenMeta>, typ: Token)
    requires Merges(m, am, done, coins, chainToken) && Find(done, v.typ) == None
    requires IndexOf(m.tokens, v.typ) == |m.tokens|
    ensures Find(m.tokens + [v], typ) == Best(Find(am.tokens, typ), Find(done + [v], typ))
  {
    MetRecord(m, v, coins, chainToken, am, done);
    FindAppend(m.tokens, v, typ);
    FindAppend(done, v, typ);
    NoneWhenAbsent(m.tokens, v.typ);
    assert Find(m.tokens, typ) == Best(Find(am.tokens, typ), Find(done, typ));
  }

  lemma {:induction false} AppendInOrder(tokens: seq<TokenMeta>, v: TokenMeta, am: AccountMeta, done: seq<TokenMeta>)
    requires InOrder(tokens, am.tokens, done) && Find(am.tokens, v.typ) == None
    ensures InOrder(tokens + [v], am.tokens, done + [v])
  {
    assert (done + [v])[..|done|] == done;
    assert (tokens + [v])[|am.tokens|..] == tokens[|am.tokens|..] + [v];
  }

  /** A type the unconfirmed record lacks does not decide about the coins. */
  lemma {:induction false} AheadAsBefore(am: AccountMeta, done: seq<TokenMeta>, v: TokenMeta, chainToken: Token)
    requires Find(am.tokens, v.typ) == None
    ensures ChainTokenAhead(am.tokens, done + [v], chainToken) == ChainTokenAhead(am.tokens, done, chainToken)
  {
    FindAppend(done, v, chainToken);
  }

  lemma {:induction false} AppendMerges(m: AccountMeta, v: TokenMeta, coins: Coins, chainToken: Token, am: AccountMeta, done: seq<TokenMeta>)
    requires Merges(m, am, done, coins, chainToken) && Find(done, v.typ) == None
    requires IndexOf(m.tokens, v.typ) == |m.tokens|
    ensures Merges(MergedOne(m, v, coins, chainToken), am, done + [v], coins, chainToken)
  {
    MetRecord(m, v, coins, chainToken, am, done);
    assert FindsBest(m.tokens + [v], am.tokens, done + [v]) by {
      forall typ ensures Find(m.tokens + [v], typ) == Best(Find(am.tokens, typ), Find(done + [v], typ)) {
        AppendFinds(m, v, coins, chainToken, am, done, typ);
      }
    }
    DistinctAppend(m.tokens, v);
    AppendInOrder(m.tokens, v, am, done);
    AheadAsBefore(am, done, v, chainToken);
  }

  /** Per type the record with more blocks, types in order, coins following the chain token. */
  lemma {:induction false} MergeIsPerToken(am: AccountMeta, confirmed: seq<TokenMeta>, coins: Coins, chainToken: Token)
    requires DistinctTypes(am.tokens) && DistinctTypes(confirmed)
    ensures Merges(MergedAll(am, confirmed, coins, chainToken), am, confirmed, coins, chainToken)
    decreases |confirmed|
  {
    if confirmed != [] {
      var init, v := confirmed[..|confirmed| - 1], confirmed[|confirmed| - 1];
      MergeIsPerToken(am, init, coins, chainToken);
      var m := MergedAll(am, init, coins, chainToken);
      NoneWhenAbsent(init, v.typ);
      assert confirmed == init + [v];
      if IndexOf(m.tokens, v.typ) < |m.tokens| {
        ReplaceMerges(m, v, coins, chainToken, am, init);
      } else {
        AppendMerges(m, v, coins, chainToken, am, init);
      }
    }
  }

  // ---- The records as objects ----

  class TokenRecord {
    var meta: TokenMeta

    constructor (meta: TokenMeta)
      ensures this.meta == meta
    {
      this.meta := meta;
    }
  }

  ghost function ValuesOf(records: seq<TokenRecord>): (r: seq<TokenMeta>)
    reads records
    ensures |r| == |records| && forall i :: 0 <= i < |r| ==> r[i] == records[i].meta
  {
    seq(|records|, i requires 0 <= i < |records| reads records => records[i].meta)
  }

  class AccountRecord {
    var address: Address
    var coins: Coins
    var tokens: seq<TokenRecord>

    ghost predicate Valid()
      reads this
    {
      forall i, j :: 0 <= i < j < |tokens| ==> tokens[i] != tokens[j]
    }

    ghost function Parts(): set<TokenRecord>
      reads this
    {
      set t | t in tokens
    }

    ghost function Value(): AccountMeta
      reads this, Parts()
    {
      AccountMeta(address, coins, ValuesOf(tokens))
    }

    /** Deserialization: every part is new. */
    constructor (v: AccountMeta)
      ensures Valid() && Value() == v && fresh(Parts())
    {
      var records: seq<TokenRecord> := [];
      while |records| < |v.tokens|
        invariant |records| <= |v.tokens| && ValuesOf(records) == v.tokens[..|records|]
        invariant forall t :: t in records ==> fresh(t)
        invariant forall i, j :: 0 <= i < j < |records| ==> records[i] != records[j]
      {
        var t := new TokenRecord(v.tokens[|records|]);
        records := records + [t];
      }
      address, coins, tokens := v.address, v.coins, records;
      new;
      assert ValuesOf(tokens) == v.tokens;
    }

    /** A copy that shares nothing with the original. */
    method Clone() returns (c: AccountRecord)
      ensures fresh(c) && c.Valid() && c.Value() == Value() && fresh(c.Parts())
    {
      var values: seq<TokenMeta> := [];
      while |values| < |tokens|
        invariant |values| <= |tokens| && values == ValuesOf(tokens)[..|values|]
      {
        values := values + [tokens[|values|].meta];
      }
      assert values == ValuesOf(tokens);
      c := new AccountRecord(AccountMeta(address, coins, values));
    }

    /** The position of the first record of a type. */
    method Position(typ: Token) returns (i: nat)
      ensures i == IndexOf(ValuesOf(tokens), typ)
    {
      i := 0;
      while i < |tokens| && tokens[i].meta.typ != typ
        invariant 0 <= i <= |tokens|
        invariant forall j :: 0 <= j < i ==> tokens[j].meta.typ != typ
      {
        i := i + 1;
      }
      FirstIndex(ValuesOf(tokens), typ, i);
    }

    /** One record edited in place. */
    method Overwrite(i: nat, meta: TokenMeta)
      requires Valid() && i < |tokens|
      modifies tokens[i]
      ensures ValuesOf(tokens) == old(ValuesOf(tokens))[i := meta]
    {
      tokens[i].meta := meta;
    }

    /** The body of the merge loop: edits the record found, or appends the confirmed one. */
    method MergeRecord(v: TokenRecord, confirmedCoins: Coins, chainToken: Token)
      requires Valid() && v !in Parts()
      modifies this, Parts()
      ensures Valid() && Value() == MergedOne(old(Value()), v.meta, confirmedCoins, chainToken)
      ensures Parts() <= old(Parts()) + {v}
    {
      ghost var was := ValuesOf(tokens);
      var i := Position(v.meta.typ);
      if i < |tokens| {
        var temp := tokens[i].meta;
        if temp.blockCount < v.meta.blockCount {
          if temp.typ == chainToken {
            coins := confirmedCoins;
          }
          Overwrite(i, v.meta);
        }
      } else {
        assert ValuesOf(tokens + [v]) == was + [v.meta];
        tokens := tokens + [v];
      }
    }
  }

  lemma {:induction false} FirstIndex(tokens: seq<TokenMeta>, typ: Token, i: nat)
    requires i <= |tokens| && (i < |tokens| ==> tokens[i].typ == typ) && forall j :: 0 <= j < i ==> tokens[j].typ != typ
    ensures IndexOf(tokens, typ) == i
  {
    if IndexOf(tokens, typ) < i {
      assert false;
    }
  }

  /** One turn of the merge loop; the records still to come are not touched. */
  method MergeNext(am: AccountRecord, records: seq<TokenRecord>, n: nat, coins: Coins, chainToken: Token,
                   ghost was: AccountMeta, ghost confirmed: seq<TokenMeta>)
    requires am.Valid() && n < |records| && am.Parts() !! Remaining(records, n)
    requires |confirmed| == |records| && ValuesOf(records[n..]) == confirmed[n..]
    requires am.Value() == MergedAll(was, confirmed[..n], coins, chainToken)
    requires forall i, j :: 0 <= i < j < |records| ==> records[i] != records[j]
    modifies am, am.Parts()
    ensures am.Valid() && am.Value() == MergedAll(was, confirmed[..n + 1], coins, chainToken)
    ensures am.Parts() <= old(am.Parts()) + {records[n]} && am.Parts() !! Remaining(records, n + 1)
    ensures ValuesOf(records[n + 1..]) == confirmed[n + 1..]
  {
    RemainingStep(records, n);
    ValuesStep(records, n);
    assert confirmed[n..] == [confirmed[n]] + confirmed[n + 1..];
    MergedAllStep(was, confirmed, n, coins, chainToken);
    am.MergeRecord(records[n], coins, chainToken);
    assert ValuesOf(records[n + 1..]) == confirmed[n + 1..];
  }

  lemma ValuesStep(records: seq<TokenRecord>, n: nat)
    requires n < |records|
    ensures ValuesOf(records[n..]) == [records[n].meta] + ValuesOf(records[n + 1..])
  {
  }

  /** The merge loop over the tokens of the cloned confirmed record, whose records it takes over. */
  method MergeTokens(am: AccountRecord, meta: AccountRecord, chainToken: Token)
    requires am != meta && am.Valid() && meta.Valid() && am.Parts() !! meta.Parts()
    modifies am, am.Parts(), meta.Parts()
    ensures am.Valid()
    ensures am.Value() == MergedAll(old(am.Value()), old(meta.Value()).tokens, old(meta.Value()).coins, chainToken)
    ensures am.Parts() <= old(am.Parts()) + meta.Parts()
  {
    ghost var was, confirmed := am.Value(), ValuesOf(meta.tokens);
    var records, n := meta.tokens, 0;
    assert records[0..] == records;
    while n < |records|
      invariant 0 <= n <= |records| && am.Valid()
      invariant am.Parts() <= old(am.Parts()) + old(meta.Parts()) && am.Parts() !! Remaining(records, n)
      invariant ValuesOf(records[n..]) == confirmed[n..]
      invariant am.Value() == MergedAll(was, confirmed[..n], meta.coins, chainToken)
    {
      MergeNext(am, records, n, meta.coins, chainToken, was, confirmed);
      n := n + 1;
    }
    assert confirmed[..n] == confirmed;
  }

  ghost function Remaining(records: seq<TokenRecord>, n: nat): set<TokenRecord>
    requires n <= |records|
  {
    set t | t in records[n..]
  }

  lemma {:induction false} RemainingStep(records: seq<TokenRecord>, n: nat)
    requires n < |records| && forall i, j :: 0 <= i < j < |records| ==> records[i] != records[j]
    ensures records[n] in Remaining(records, n) && Remaining(records, n + 1) <= Remaining(records, n)
    ensures records[n] !in Remaining(records, n + 1)
    ensures records[n..] == [records[n]] + records[n + 1..]
  {
  }

  /** The coin balances of the record that is followed. */
  function MergedCoins(unconfirmed: Option<AccountMeta>, confirmed: Option<AccountMeta>, chainToken: Token): Coins
    requires unconfirmed.Some? || confirmed.Some?
  {
    if unconfirmed.None? then confirmed.value.coins
    else if confirmed.None? then unconfirmed.value.coins
    else if ChainTokenAhead(unconfirmed.value.tokens, confirmed.value.tokens, chainToken) then confirmed.value.coins
    else unconfirmed.value.coins
  }

  /** What GetAccountMeta returns for two records. */
  function MergedView(unconfirmed: Option<AccountMeta>, confirmed: Option<AccountMeta>, chainToken: Token): Option<AccountMeta> {
    if unconfirmed.None? then confirmed
    else if confirmed.None? then unconfirmed
    else Some(MergedAll(unconfirmed.value, confirmed.value.tokens, confirmed.value.coins, chainToken))
  }

  function TokensOf(record: Option<AccountMeta>): seq<TokenMeta> { if record.Some? then record.value.tokens else [] }

  /** The view: every token of either record, each the record with more blocks, the unconfirmed one on a tie. */
  lemma {:induction false} ViewIsPerToken(unconfirmed: Option<AccountMeta>, confirmed: Option<AccountMeta>, chainToken: Token)
    requires DistinctTypes(TokensOf(unconfirmed)) && DistinctTypes(TokensOf(confirmed))
    ensures var r := MergedView(unconfirmed, confirmed, chainToken);
            && (r.None? <==> unconfirmed.None? && confirmed.None?)
            && (unconfirmed.None? || confirmed.None? ==> r == unconfirmed || r == confirmed)
            && (unconfirmed.Some? ==> r.value.address == unconfirmed.value.address)
            && DistinctTypes(TokensOf(r))
            && (forall typ :: Find(TokensOf(r), typ) == Best(Find(TokensOf(unconfirmed), typ), Find(TokensOf(confirmed), typ)))
            && (unconfirmed.Some? && confirmed.Some? ==> InOrder(TokensOf(r), TokensOf(unconfirmed), TokensOf(confirmed)))
            && (r.Some? ==> r.value.coins == MergedCoins(unconfirmed, confirmed, chainToken))
  {
    if unconfirmed.Some? && confirmed.Some? {
      MergeIsPerToken(unconfirmed.value, confirmed.value.tokens, confirmed.value.coins, chainToken);
    }
  }

  /**
   The coin balances come from the record whose chain token is in the view: the confirmed one exactly when its
   chain token has more blocks, else the unconfirmed one, also when either record lacks the chain token.
   */
  lemma {:induction false} CoinsFollowChainToken(unconfirmed: AccountMeta, confirmed: AccountMeta, chainToken: Token, i: nat, j: nat)
    requires DistinctTypes(unconfirmed.tokens) && DistinctTypes(confirmed.tokens)
    requires i <= |unconfirmed.tokens| && j <= |confirmed.tokens|
    requires forall x :: 0 <= x < |unconfirmed.tokens| ==> (unconfirmed.tokens[x].typ == chainToken <==> x == i)
    requires forall x :: 0 <= x < |confirmed.tokens| ==> (confirmed.tokens[x].typ == chainToken <==> x == j)
    ensures var r := MergedView(Some(unconfirmed), Some(confirmed), chainToken).value;
            if i < |unconfirmed.tokens| && j < |confirmed.tokens| &&
               confirmed.tokens[j].blockCount > unconfirmed.tokens[i].blockCount
            then r.coins == confirmed.coins && confirmed.tokens[j] in r.tokens
            else r.coins == unconfirmed.coins && (i < |unconfirmed.tokens| ==> unconfirmed.tokens[i] in r.tokens)
  {
    var r := MergedView(Some(unconfirmed), Some(confirmed), chainToken).value;
    ViewIsPerToken(Some(unconfirmed), Some(confirmed), chainToken);
    FoundAt(unconfirmed.tokens, chainToken, i);
    FoundAt(confirmed.tokens, chainToken, j);
    FindIs(r.tokens, chainToken);
    assert Find(r.tokens, chainToken) == Best(Find(unconfirmed.tokens, chainToken), Find(confirmed.tokens, chainToken));
  }

  lemma {:induction false} FoundAt(tokens: seq<TokenMeta>, typ: Token, i: nat)
    requires DistinctTypes(tokens) && i <= |tokens|
    requires forall x :: 0 <= x < |tokens| ==> (tokens[x].typ == typ <==> x == i)
    ensures Find(tokens, typ) == if i < |tokens| then Some(tokens[i]) else None
  {
    if i < |tokens| {
      FindAt(tokens, i);
    } else {
      NoneWhenAbsent(tokens, typ);
    }
  }

  /**
   GetAccountMeta.  The unconfirmed record is read from its bytes, the confirmed one is an object in a cache
   and is cloned first.  The method may modify nothing that existed before, and the result shares no object
   with the cached record.
   */
  method GetAccountMeta(unconfirmed: Option<AccountMeta>, confirmed: Option<AccountRecord>, chainToken: Token)
      returns (r: Option<AccountRecord>)
    ensures var stored := if confirmed.Some? then Some(old(confirmed.value.Value())) else None;
            && (r.Some? <==> MergedView(unconfirmed, stored, chainToken).Some?)
            && (r.Some? ==> r.value.Value() == MergedView(unconfirmed, stored, chainToken).value)
    ensures r.Some? ==> fresh(r.value) && fresh(r.value.Parts())
    ensures confirmed.Some? ==> confirmed.value.Value() == old(confirmed.value.Value())
  {
    if confirmed.None? {
      if unconfirmed.None? {
        return None;
      }
      var am := new AccountRecord(unconfirmed.value);
      return Some(am);
    }
    var meta := confirmed.value.Clone();
    if unconfirmed.None? {
      return Some(meta);
    }
    var am := MergeInto(unconfirmed.value, meta, chainToken);
    return Some(am);
  }

  /** The unconfirmed record, read from its bytes, takes in the clone of the confirmed one. */
  method MergeInto(v: AccountMeta, meta: AccountRecord, chainToken: Token) returns (am: AccountRecord)
    requires meta.Valid()
    modifies meta.Parts()
    ensures am.Value() == MergedAll(v, old(meta.Value()).tokens, old(meta.Value()).coins, chainToken)
    ensures fresh(am) && fresh(am.Parts() - meta.Parts())
  {
    am := new AccountRecord(v);
    MergeTokens(am, meta, chainToken);
  }

  // ---- Deleting a token while ranging over the slice ----

  function Without(tokens: seq<TokenMeta>, typ: Token): seq<TokenMeta> {
    if tokens == [] then []
    else
      var last := tokens[|tokens| - 1];
      Without(tokens[..|tokens| - 1], typ) + if last.typ == typ then [] else [last]
  }

  function Count(tokens: seq<TokenMeta>, typ: Token): nat {
    if tokens == [] then 0
    else Count(tokens[..|tokens| - 1], typ) + if tokens[|tokens| - 1].typ == typ then 1 else 0
  }

  /** append(tokens[:i], tokens[i+1:]...): the tail moves left, the last cell keeps its value. */
  function Shift(cells: seq<TokenMeta>, i: nat): seq<TokenMeta>
    requires i < |cells|
  {
    cells[..i] + cells[i + 1..] + [cells[|cells| - 1]]
  }

  /** The cells and the length of the kept slice after the loop has run from index i. */
  function Ranged(cells: seq<TokenMeta>, typ: Token, i: nat, kept: nat): (seq<TokenMeta>, nat)
    requires i <= |cells|
    decreases |cells| - i
  {
    if i == |cells| then (cells, kept)
    else if cells[i].typ == typ then Ranged(Shift(cells, i), typ, i + 1, |cells| - 1)
    else Ranged(cells, typ, i + 1, kept)
  }

  lemma {:induction false} WithoutConcat(a: seq<TokenMeta>, b: seq<TokenMeta>, typ: Token)
    ensures Without(a + b, typ) == Without(a, typ) + Without(b, typ)
    ensures Count(a + b, typ) == Count(a, typ) + Count(b, typ)
    decreases |b|
  {
    if b == [] {
      assert a + b == a;
    } else {
      var n := |b| - 1;
      assert (a + b)[..|a + b| - 1] == a + b[..n];
      WithoutConcat(a, b[..n], typ);
    }
  }

  lemma {:induction false} WithoutNone(a: seq<TokenMeta>, typ: Token)
    ensures |Without(a, typ)| == |a| - Count(a, typ)
    ensures Count(a, typ) == 0 ==> Without(a, typ) == a
    ensures Count(a, typ) == 0 <==> forall i :: 0 <= i < |a| ==> a[i].typ != typ
    decreases |a|
  {
    if a != [] {
      WithoutNone(a[..|a| - 1], typ);
    }
  }

  /** Once a token has been removed, the loop leaves the kept length at one less than the slice. */
  lemma {:induction false} RangedKept(cells: seq<TokenMeta>, typ: Token, i: nat, kept: nat)
    requires i <= |cells| && kept <= |cells|
    ensures var r := Ranged(cells, typ, i, kept);
            && |r.0| == |cells| && r.1 <= |cells|
            && (r.1 == kept || r.1 == |cells| - 1)
            && ((forall j :: i <= j < |cells| ==> cells[j].typ != typ) ==> r == (cells, kept))
    decreases |cells| - i
  {
    if i < |cells| {
      if cells[i].typ == typ {
        RangedKept(Shift(cells, i), typ, i + 1, |cells| - 1);
      } else {
        RangedKept(cells, typ, i + 1, kept);
      }
    }
  }

  /** The cells before the first match are passed over. */
  lemma {:induction false} RangedSkips(cells: seq<TokenMeta>, typ: Token, i: nat, p: nat, kept: nat)
    requires i <= p <= |cells| && forall j :: i <= j < p ==> cells[j].typ != typ
    ensures Ranged(cells, typ, i, kept) == Ranged(cells, typ, p, kept)
    decreases p - i
  {
    if i < p {
      RangedSkips(cells, typ, i + 1, p, kept);
    }
  }

  /** The record without the type, split at its first match. */
  lemma {:induction false} SplitAtMatch(tokens: seq<TokenMeta>, typ: Token, p: nat)
    requires p < |tokens| && tokens[p].typ == typ && forall j :: 0 <= j < p ==> tokens[j].typ != typ
    ensures Without(tokens, typ) == tokens[..p] + Without(tokens[p + 1..], typ)
    ensures Count(tokens, typ) == 1 + Count(tokens[p + 1..], typ)
  {
    var head, tail := tokens[..p], tokens[p + 1..];
    assert tokens == head + ([tokens[p]] + tail);
    WithoutThree(head, tokens[p], tail, typ);
    WithoutNone(head, typ);
  }

  lemma {:induction false} WithoutThree(head: seq<TokenMeta>, t: TokenMeta, tail: seq<TokenMeta>, typ: Token)
    requires t.typ == typ
    ensures Without(head + ([t] + tail), typ) == Without(head, typ) + Without(tail, typ)
    ensures Count(head + ([t] + tail), typ) == Count(head, typ) + 1 + Count(tail, typ)
  {
    WithoutConcat(head, [t] + tail, typ);
    WithoutConcat([t], tail, typ);
    OneMatch(t, typ);
  }

  /** From the first match on, the loop keeps one cell less; with no other match it shifts only once. */
  lemma {:induction false} RangedFrom(tokens: seq<TokenMeta>, typ: Token, p: nat)
    requires p < |tokens| && tokens[p].typ == typ && forall j :: 0 <= j < p ==> tokens[j].typ != typ
    ensures Ranged(tokens, typ, 0, |tokens|).1 == |tokens| - 1
    ensures Count(tokens[p + 1..], typ) == 0 ==> Ranged(tokens, typ, 0, |tokens|).0 == Shift(tokens, p)
  {
    var n, shifted := |tokens|, Shift(tokens, p);
    RangedSkips(tokens, typ, 0, p, n);
    RangedKept(shifted, typ, p + 1, n - 1);
    if Count(tokens[p + 1..], typ) == 0 {
      WithoutNone(tokens[p + 1..], typ);
      forall j | p + 1 <= j < n ensures shifted[j].typ != typ {
        assert shifted[j] == tokens[p + 1..][if j < n - 1 then j - p else n - 2 - p];
      }
    }
  }

  /** Removing a token while ranging yields the record without it exactly when the type occurs at most once. */
  lemma {:induction false} DeleteIsExactIff(tokens: seq<TokenMeta>, typ: Token)
    ensures Ranged(tokens, typ, 0, |tokens|).1 <= |Ranged(tokens, typ, 0, |tokens|).0|
    ensures var (cells, kept) := Ranged(tokens, typ, 0, |tokens|);
            cells[..kept] == Without(tokens, typ) <==> Count(tokens, typ) <= 1
  {
    RangedKept(tokens, typ, 0, |tokens|);
    WithoutNone(tokens, typ);
    var (cells, kept) := Ranged(tokens, typ, 0, |tokens|);
    if Count(tokens, typ) == 0 {
      assert cells[..kept] == tokens;
    } else {
      var p := FirstMatch(tokens, typ);
      SplitAtMatch(tokens, typ, p);
      RangedFrom(tokens, typ, p);
      if Count(tokens, typ) == 1 {
        WithoutNone(tokens[p + 1..], typ);
        assert cells[..kept] == tokens[..p] + tokens[p + 1..];
      }
    }
  }

  /** Two records of the type: one of them stays. */
  lemma {:induction false} SecondMatchStays(t: TokenMeta)
    ensures Ranged([t, t], t.typ, 0, 2) == ([t, t], 1) && Without([t, t], t.typ) == []
  {
    assert Shift([t, t], 0) == [t, t] && Shift([t, t], 1) == [t, t];
    assert Ranged([t, t], t.typ, 1, 1) == Ranged([t, t], t.typ, 2, 1);
    OneMatch(t, t.typ);
    assert [t, t][..1] == [t];
  }

  lemma {:induction false} OneMatch(t: TokenMeta, typ: Token)
    requires t.typ == typ
    ensures Without([t], typ) == [] && Count([t], typ) == 1
  {
    assert [t][..0] == [];
  }

  lemma {:induction false} FirstMatch(tokens: seq<TokenMeta>, typ: Token) returns (p: nat)
    requires Count(tokens, typ) > 0
    ensures p < |tokens| && tokens[p].typ == typ && forall j :: 0 <= j < p ==> tokens[j].typ != typ
    decreases |tokens|
  {
    var n := |tokens| - 1;
    if Count(tokens[..n], typ) > 0 {
      p := FirstMatch(tokens[..n], typ);
    } else {
      WithoutNone(tokens[..n], typ);
      p := n;
    }
  }

  /** The loop of DeleteTokenMetaConfirmed, shifting the array under the range. */
  method DeleteToken(cells: array<TokenMeta>, typ: Token) returns (kept: nat)
    modifies cells
    ensures (cells[..], kept) == Ranged(old(cells[..]), typ, 0, cells.Length)
    ensures kept <= cells.Length
    ensures Count(old(cells[..]), typ) <= 1 ==> cells[..kept] == Without(old(cells[..]), typ)
  {
    kept := cells.Length;
    var index := 0;
    while index < cells.Length
      invariant 0 <= index <= cells.Length
      invariant Ranged(cells[..], typ, index, kept) == Ranged(old(cells[..]), typ, 0, cells.Length)
    {
      if cells[index].typ == typ {
        ghost var before := cells[..];
        ShiftCells(cells, index);
        assert cells[..] == Shift(before, index);
        kept := cells.Length - 1;
      }
      index := index + 1;
    }
    DeleteIsExactIff(old(cells[..]), typ);
  }

  /** The copy that append makes. */
  method ShiftCells(cells: array<TokenMeta>, index: nat)
    requires index < cells.Length
    modifies cells
    ensures cells[..] == Shift(old(cells[..]), index)
  {
    var j := index;
    while j < cells.Length - 1
      invariant index <= j <= cells.Length - 1
      invariant forall x :: 0 <= x < index || j <= x < cells.Length ==> cells[x] == old(cells[x])
      invariant forall x :: index <= x < j ==> cells[x] == old(cells[x + 1])
    {
      cells[j] := cells[j + 1];
      j := j + 1;
    }
  }
}
