/** Deferred transfers of account names: pairs of accounts reserve aliases, maintenance applies them. */
module NameTransfer {
  import opened Wrappers
  import MapSum

  type Id = nat
  datatype Account = Account(name: string, alias: Option<string>)
  type Accounts = map<Id, Account>

  predicate UniqueNames(accounts: Accounts) {
    forall x <- accounts, y <- accounts :: accounts[x].name == accounts[y].name ==> x == y
  }

  predicate Taken(accounts: Accounts, name: string) {
    exists x <- accounts :: accounts[x].name == name
  }

  predicate Reserved(accounts: Accounts, name: string) {
    exists x <- accounts :: accounts[x].alias == Some(name)
  }

  /** A transfer that waits: the sender has reserved some name, the receiver the sender's. */
  predicate Listed(accounts: Accounts, from: Id, to: Id) {
    && from in accounts && to in accounts && from != to
    && accounts[from].alias.Some? && accounts[to].alias == Some(accounts[from].name)
  }

  predicate UniqueAliases(accounts: Accounts) {
    forall x <- accounts, y <- accounts :: accounts[x].alias.Some? && accounts[x].alias == accounts[y].alias ==> x == y
  }

  ghost predicate AllListed(accounts: Accounts, pairs: map<Id, Id>) {
    forall f <- pairs :: Listed(accounts, f, pairs[f])
  }

  /** No account is in two transfers. */
  ghost predicate Apart(pairs: map<Id, Id>) {
    && (forall f <- pairs :: pairs[f] !in pairs)
    && (forall f <- pairs, g <- pairs :: pairs[f] == pairs[g] ==> f == g)
  }

  ghost predicate Receives(pairs: map<Id, Id>, x: Id) {
    exists f <- pairs :: pairs[f] == x
  }

  /** Only accounts in a transfer have an alias. */
  ghost predicate Accounted(accounts: Accounts, pairs: map<Id, Id>) {
    forall x <- accounts :: accounts[x].alias.Some? ==> x in pairs || Receives(pairs, x)
  }

  /** Who has the name that a sender has reserved takes part in no transfer. */
  ghost predicate Outside(accounts: Accounts, pairs: map<Id, Id>) {
    forall f <- pairs, y <- accounts ::
      f in accounts && accounts[f].alias == Some(accounts[y].name) ==> accounts[y].alias.None?
  }

  /** pairs lists the waiting transfers, sender to receiver. */
  ghost predicate Loose(accounts: Accounts, pairs: map<Id, Id>) {
    && AllListed(accounts, pairs) && Apart(pairs) && Accounted(accounts, pairs)
    && UniqueNames(accounts) && UniqueAliases(accounts) && Outside(accounts, pairs)
  }

  /** The name that each sender has reserved is free. */
  ghost predicate Open(accounts: Accounts, pairs: map<Id, Id>) {
    forall f <- pairs :: f in accounts && accounts[f].alias.Some? ==> !Taken(accounts, accounts[f].alias.value)
  }

  ghost predicate Paired(accounts: Accounts, pairs: map<Id, Id>) {
    Loose(accounts, pairs) && Open(accounts, pairs)
  }

  /** What the waiting transfers come to. */
  ghost predicate Applied(before: Accounts, pairs: map<Id, Id>, after: Accounts) {
    && after.Keys == before.Keys
    && (forall f <- pairs :: f in before && pairs[f] in before && before[f].alias.Some?
          && after[f] == Account(before[f].alias.value, None) && after[pairs[f]] == Account(before[f].name, None))
    && (forall x <- before :: x !in pairs && !Receives(pairs, x) ==> after[x] == before[x])
  }

  /** The accounts after both renames of one pair. */
  function Swapped(accounts: Accounts, f: Id, t: Id): Accounts
    requires Listed(accounts, f, t)
  {
    accounts[f := Account(accounts[f].alias.value, None)][t := Account(accounts[f].name, None)]
  }

  /** What maintenance comes to, with no regard to pairs or order: everybody takes the name they have reserved. */
  function Maintained(accounts: Accounts): Accounts {
    map x <- accounts :: if accounts[x].alias.Some? then Account(accounts[x].alias.value, None) else accounts[x]
  }

  /** The name the sender will get: the one asked for, or its own with the block number added. */
  function Target(accounts: Accounts, from: Id, newName: Option<string>, blockNum: string): string
    requires from in accounts
  {
    if newName.Some? then newName.value else accounts[from].name + blockNum
  }

  /** The checks of name_transfer_evaluator. */
  predicate MayTransfer(accounts: Accounts, from: Id, to: Id, newName: Option<string>, blockNum: string) {
    && from in accounts && to in accounts && from != to
    && accounts[from].alias.None? && accounts[to].alias.None?
    && !Taken(accounts, Target(accounts, from, newName, blockNum))
    && !Reserved(accounts, Target(accounts, from, newName, blockNum))
  }

  /** The accounts after a reservation. */
  function Reserve(accounts: Accounts, from: Id, to: Id, target: string): Accounts
    requires from in accounts && to in accounts && from != to
  {
    accounts[from := accounts[from].(alias := Some(target))][to := accounts[to].(alias := Some(accounts[from].name))]
  }

  // ---- steps ----

  datatype Step =
    | Create(x: Id, name: string)
    | Transfer(from: Id, to: Id, newName: Option<string>, blockNum: string)
    | Maintain

  /** account_create looks at names, not at reserved ones. */
  predicate MayCreate(accounts: Accounts, x: Id, name: string) {
    x !in accounts && !Taken(accounts, name)
  }

  function Next(accounts: Accounts, step: Step): Accounts {
    match step
    case Create(x, name) => if MayCreate(accounts, x, name) then accounts[x := Account(name, None)] else accounts
    case Transfer(from, to, newName, blockNum) =>
      if MayTransfer(accounts, from, to, newName, blockNum)
      then Reserve(accounts, from, to, Target(accounts, from, newName, blockNum)) else accounts
    case Maintain => Maintained(accounts)
  }

  function Run(accounts: Accounts, steps: seq<Step>): Accounts
    decreases |steps|
  {
    if steps == [] then accounts else Next(Run(accounts, steps[..|steps| - 1]), steps[|steps| - 1])
  }

  /** No account is created under a name that is reserved at the time. */
  predicate SteadyRun(accounts: Accounts, steps: seq<Step>) {
    forall i :: 0 <= i < |steps| && steps[i].Create? ==> !Reserved(Run(accounts, steps[..i]), steps[i].name)
  }

  class Database {
    var accounts: Accounts
    ghost var pairs: map<Id, Id>

    constructor (accounts: Accounts)
      requires UniqueNames(accounts) && forall x <- accounts :: accounts[x].alias.None?
      ensures this.accounts == accounts && pairs == map[] && Paired(this.accounts, pairs)
    {
      this.accounts, pairs := accounts, map[];
    }

    /**
     * account_create_evaluator, with the id that the new object gets. Waiting transfers stay listed whatever the
     * name, and
     * stay possible exactly when nobody has reserved it.
     */
    method CreateAccount(x: Id, name: string) returns (ok: bool)
      requires x !in accounts
      modifies this`accounts
      ensures ok == MayCreate(old(accounts), x, name) && accounts == Next(old(accounts), Create(x, name))
      ensures !ok ==> accounts == old(accounts)
      ensures Loose(old(accounts), pairs) ==> Loose(accounts, pairs)
      ensures ok && Paired(old(accounts), pairs) ==> (Paired(accounts, pairs) <==> !Reserved(old(accounts), name))
    {
      hide Loose, Open;
      if exists y <- accounts :: accounts[y].name == name {
        return false;
      }
      ghost var before := accounts;
      accounts := accounts[x := Account(name, None)];
      if Loose(before, pairs) {
        CreatedLoose(before, pairs, x, name);
        CreatedOpen(before, pairs, x, name);
      }
      return true;
    }

    /**
     * name_transfer_evaluator. The waiting transfers stay apart exactly when neither of the two accounts has a name
     * that
     * somebody has reserved, which is so as long as no account was created under a reserved name.
     */
    method TransferName(from: Id, to: Id, newName: Option<string>, blockNum: string) returns (ok: bool)
      modifies this
      ensures ok == MayTransfer(old(accounts), from, to, newName, blockNum)
      ensures accounts == Next(old(accounts), Transfer(from, to, newName, blockNum))
      ensures pairs == if ok then old(pairs)[from := to] else old(pairs)
      ensures Paired(old(accounts), old(pairs)) ==> Paired(accounts, pairs)
      ensures ok && Loose(old(accounts), old(pairs)) ==> (Loose(accounts, pairs) <==>
        !Reserved(old(accounts), old(accounts)[from].name) && !Reserved(old(accounts), old(accounts)[to].name))
    {
      hide Loose, Open;
      if from !in accounts || to !in accounts || from == to || accounts[from].alias.Some? || accounts[to].alias.Some? {
        return false;
      }
      var target := Target(accounts, from, newName, blockNum);
      if Taken(accounts, target) || Reserved(accounts, target) {
        return false;
      }
      ghost var before, listed := accounts, pairs;
      var name := accounts[from].name;
      accounts := accounts[from := accounts[from].(alias := Some(target))];
      accounts := accounts[to := accounts[to].(alias := Some(name))];
      pairs := pairs[from := to];
      if Loose(before, listed) {
        NewPairIff(before, listed, from, to, target);
        if Open(before, listed) {
          OldNameFree(before, listed, from);
          OldNameFree(before, listed, to);
          NewPairOpen(before, listed, from, to, target);
        }
      }
      return true;
    }

    /** One rename inside the unique name index: it throws when the new name is taken at that moment. */
    method Rename(x: Id) returns (ok: bool)
      requires x in accounts && accounts[x].alias.Some? && UniqueNames(accounts)
      requires accounts[x].alias != Some(accounts[x].name)
      modifies this`accounts
      ensures ok <==> !Taken(old(accounts), old(accounts)[x].alias.value)
      ensures ok ==> accounts == old(accounts)[x := Account(old(accounts)[x].alias.value, None)]
      ensures ok ==> UniqueNames(accounts)
      ensures !ok ==> accounts == old(accounts)
    {
      if exists y <- accounts :: y != x && accounts[y].name == accounts[x].alias.value {
        return false;
      }
      accounts := accounts[x := Account(accounts[x].alias.value, None)];
      return true;
    }

    /** The two renames of a waiting pair, the sender first. Only the first can throw. */
    method RenamePair(f: Id, t: Id) returns (ok: bool)
      requires Listed(accounts, f, t) && UniqueNames(accounts) && accounts[f].alias != Some(accounts[f].name)
      modifies this`accounts
      ensures ok <==> !Taken(old(accounts), old(accounts)[f].alias.value)
      ensures ok ==> accounts == Swapped(old(accounts), f, t) && UniqueNames(accounts)
    {
      ok := Rename(f);
      if ok {
        ok := Rename(t);
      }
    }

    /**
     * process_name_transfer: it ends, and throws exactly when some reserved name has been taken since. Otherwise every
     * rename keeps names unique, and in the end everybody has the name they reserved and no alias is left.
     */
    method ProcessNameTransfer() returns (ok: bool)
      requires Loose(accounts, pairs)
      modifies this
      ensures ok <==> Open(old(accounts), old(pairs))
      ensures ok ==> Paired(accounts, pairs) && pairs == map[] && accounts == Maintained(old(accounts))
    {
      hide Loose, Open, Swapped, Maintained, Progress, Listed;
      ghost var start, all := accounts, pairs;
      assert Progress(start, accounts) by { ProgressStart(start); }
      while exists x <- accounts :: accounts[x].alias.Some?
        invariant Loose(accounts, pairs) && Progress(start, accounts)
        invariant Open(accounts, pairs) == Open(start, all)
        decreases |pairs|
      {
        var x :| x in accounts && accounts[x].alias.Some?;
        var name, alias := accounts[x].name, accounts[x].alias.value;
        ghost var before, waiting := accounts, pairs;
        ghost var f, t := PairOf(accounts, pairs, x);
        PairIsListed(accounts, pairs, f);
        if exists y <- accounts :: accounts[y].alias == Some(name) {
          var a :| a in accounts && accounts[a].alias == Some(name);
          assert x == f && a == t;
          ok := RenamePair(x, a);
        } else {
          assert x == t;
          var n :| n in accounts && accounts[n].name == alias;
          assert n == f;
          ok := RenamePair(n, x);
        }
        SwapKeeps(before, waiting, f);
        if !ok {
          return;
        }
        ProgressStep(start, before, f, t);
        MapSum.Shrinks(pairs, f);
        pairs := pairs - {f};
      }
      NothingLeft(accounts, pairs);
      ProgressEnds(start, accounts);
      return true;
    }

    /** Every steady run: no maintenance in it throws, and the accounts are what the steps say. */
    method Perform(steps: seq<Step>) returns (ok: bool)
      requires Paired(accounts, pairs) && SteadyRun(accounts, steps)
      modifies this
      ensures ok && Paired(accounts, pairs) && accounts == Run(old(accounts), steps)
    {
      hide Loose, Open, Next;
      ok := true;
      for i := 0 to |steps|
        invariant ok && Paired(accounts, pairs) && accounts == Run(old(accounts), steps[..i])
      {
        assert steps[..i + 1][..i] == steps[..i];
        match steps[i]
        case Create(x, name) =>
          assert !Reserved(Run(old(accounts), steps[..i]), steps[i].name);
          if x in accounts {
            CreateNothing(accounts, x, name);
          } else {
            var created := CreateAccount(x, name);
          }
        case Transfer(from, to, newName, blockNum) => var made := TransferName(from, to, newName, blockNum);
        case Maintain =>
          MaintainNext(accounts);
          ok := ProcessNameTransfer();
      }
      assert steps[..|steps|] == steps;
    }
  }

  lemma CreateNothing(accounts: Accounts, x: Id, name: string)
    requires x in accounts
    ensures Next(accounts, Create(x, name)) == accounts
  {}

  lemma MaintainNext(accounts: Accounts)
    ensures Next(accounts, Maintain) == Maintained(accounts)
  {}

  // ---- creation ----

  lemma CreatedLoose(accounts: Accounts, pairs: map<Id, Id>, x: Id, name: string)
    requires Loose(accounts, pairs) && MayCreate(accounts, x, name)
    ensures Loose(accounts[x := Account(name, None)], pairs)
  {
    hide Receives;
    var after := accounts[x := Account(name, None)];
    forall f <- pairs ensures Listed(after, f, pairs[f]) {
      assert Listed(accounts, f, pairs[f]);
    }
    forall y <- accounts ensures accounts[y].name != name {
      assert !Taken(accounts, name);
    }
  }

  /** Who has reserved a name that nobody has is a sender. */
  lemma ReserverSends(accounts: Accounts, pairs: map<Id, Id>, z: Id, name: string)
    requires Loose(accounts, pairs) && z in accounts && accounts[z].alias == Some(name)
    requires forall y <- accounts :: accounts[y].name == name ==> accounts[y].alias.None?
    ensures z in pairs
  {
    forall f <- pairs ensures Listed(accounts, f, pairs[f]) {}
  }

  lemma CreatedOpen(accounts: Accounts, pairs: map<Id, Id>, x: Id, name: string)
    requires Loose(accounts, pairs) && MayCreate(accounts, x, name)
    ensures Open(accounts, pairs) ==> (Open(accounts[x := Account(name, None)], pairs) <==> !Reserved(accounts, name))
  {
    hide Loose;
    var after := accounts[x := Account(name, None)];
    forall n ensures Taken(after, n) <==> Taken(accounts, n) || n == name {
      assert after[x].name == name;
      if Taken(accounts, n) {
        var y :| y in accounts && accounts[y].name == n;
        assert after[y].name == n;
      }
    }
    if Reserved(accounts, name) {
      var z :| z in accounts && accounts[z].alias == Some(name);
      ReserverSends(accounts, pairs, z, name);
    }
    forall f <- pairs ensures f in accounts {
      PairIsListed(accounts, pairs, f);
    }
  }

  // ---- reservation ----

  lemma NewPairIff(accounts: Accounts, pairs: map<Id, Id>, from: Id, to: Id, target: string)
    requires Loose(accounts, pairs) && from in accounts && to in accounts && from != to
    requires accounts[from].alias.None? && accounts[to].alias.None? && !Taken(accounts, target)
    requires !Reserved(accounts, target)
    ensures Loose(Reserve(accounts, from, to, target), pairs[from := to]) <==>
      !Reserved(accounts, accounts[from].name) && !Reserved(accounts, accounts[to].name)
  {
    hide Loose;
    if Reserved(accounts, accounts[from].name) {
      SenderNameReserved(accounts, from, to, target, pairs[from := to]);
    } else if Reserved(accounts, accounts[to].name) {
      ReceiverNameReserved(accounts, pairs, from, to, target);
    } else {
      NewPair(accounts, pairs, from, to, target);
    }
  }

  lemma SenderNameReserved(accounts: Accounts, from: Id, to: Id, target: string, pairs: map<Id, Id>)
    requires from in accounts && to in accounts && from != to && accounts[from].alias.None? && accounts[to].alias.None?
    requires Reserved(accounts, accounts[from].name)
    ensures !Loose(Reserve(accounts, from, to, target), pairs)
  {
    var after := Reserve(accounts, from, to, target);
    var z :| z in accounts && accounts[z].alias == Some(accounts[from].name);
    assert after[z].alias == after[to].alias && z != to;
  }

  lemma ReceiverNameReserved(accounts: Accounts, pairs: map<Id, Id>, from: Id, to: Id, target: string)
    requires Loose(accounts, pairs) && from in accounts && to in accounts && from != to
    requires accounts[from].alias.None? && accounts[to].alias.None? && Reserved(accounts, accounts[to].name)
    ensures !Loose(Reserve(accounts, from, to, target), pairs[from := to])
  {
    hide Accounted, Apart, UniqueAliases;
    var after := Reserve(accounts, from, to, target);
    var z :| z in accounts && accounts[z].alias == Some(accounts[to].name);
    ReserverSends(accounts, pairs, z, accounts[to].name);
    assert after[z].alias == Some(after[to].name) && after[to].alias.Some? && z in pairs[from := to];
  }

  lemma NewPair(accounts: Accounts, pairs: map<Id, Id>, from: Id, to: Id, target: string)
    requires Loose(accounts, pairs) && from in accounts && to in accounts && from != to
    requires accounts[from].alias.None? && accounts[to].alias.None? && !Taken(accounts, target)
    requires !Reserved(accounts, target)
    requires !Reserved(accounts, accounts[from].name) && !Reserved(accounts, accounts[to].name)
    ensures Loose(Reserve(accounts, from, to, target), pairs[from := to])
  {
    hide Listed, UniqueAliases, Accounted, Receives, Taken, Reserved, Outside;
    var after, more := Reserve(accounts, from, to, target), pairs[from := to];
    forall f <- more ensures Listed(after, f, more[f]) {
      ListedAfter(accounts, pairs, from, to, target, f);
    }
    ApartAfter(accounts, pairs, from, to);
    assert Accounted(after, more) by { AccountedAfter(accounts, pairs, from, to, target); }
    assert UniqueAliases(after) by { AliasesAfter(accounts, from, to, target); }
    assert Outside(after, more) by { OutsideAfter(accounts, pairs, from, to, target); }
  }

  lemma OutsideAfter(accounts: Accounts, pairs: map<Id, Id>, from: Id, to: Id, target: string)
    requires Outside(accounts, pairs) && from in accounts && to in accounts && from != to && !Taken(accounts, target)
    requires !Reserved(accounts, accounts[from].name) && !Reserved(accounts, accounts[to].name)
    requires forall f <- pairs :: f in accounts && f != from && f != to
    ensures Outside(Reserve(accounts, from, to, target), pairs[from := to])
  {
    var after := Reserve(accounts, from, to, target);
    forall y <- accounts ensures accounts[y].name != target {}
  }

  lemma NewPairOpen(accounts: Accounts, pairs: map<Id, Id>, from: Id, to: Id, target: string)
    requires Loose(accounts, pairs) && Open(accounts, pairs) && from in accounts && to in accounts && from != to
    requires accounts[from].alias.None? && accounts[to].alias.None? && !Taken(accounts, target)
    ensures Open(Reserve(accounts, from, to, target), pairs[from := to])
  {
    hide Taken, Accounted, Apart, UniqueAliases, UniqueNames, Outside;
    SameTaken(accounts, Reserve(accounts, from, to, target));
    forall f <- pairs ensures f != from && f != to {
      assert Listed(accounts, f, pairs[f]);
    }
  }

  lemma ListedAfter(accounts: Accounts, pairs: map<Id, Id>, from: Id, to: Id, target: string, f: Id)
    requires Loose(accounts, pairs) && from in accounts && to in accounts && from != to && f in pairs[from := to]
    requires accounts[from].alias.None? && accounts[to].alias.None?
    ensures Listed(Reserve(accounts, from, to, target), f, pairs[from := to][f])
  {
    hide UniqueAliases, Accounted, Apart, UniqueNames, Outside;
    if f != from {
      assert Listed(accounts, f, pairs[f]);
    }
  }

  lemma ApartAfter(accounts: Accounts, pairs: map<Id, Id>, from: Id, to: Id)
    requires AllListed(accounts, pairs) && Apart(pairs) && from in accounts && to in accounts && from != to
    requires accounts[from].alias.None? && accounts[to].alias.None?
    ensures Apart(pairs[from := to]) && from !in pairs
    ensures forall f <- pairs :: f in accounts && f != from && f != to
  {
    forall f <- pairs ensures f in accounts && f != from && f != to && pairs[f] != from && pairs[f] != to {
      assert Listed(accounts, f, pairs[f]);
    }
  }

  lemma AccountedAfter(accounts: Accounts, pairs: map<Id, Id>, from: Id, to: Id, target: string)
    requires Accounted(accounts, pairs) && from in accounts && to in accounts && from != to && from !in pairs
    ensures Accounted(Reserve(accounts, from, to, target), pairs[from := to])
  {
    var after, more := Reserve(accounts, from, to, target), pairs[from := to];
    assert more[from] == to;
    forall x <- after | after[x].alias.Some? && x !in more ensures Receives(more, x) {
      if x != to {
        var f :| f in pairs && pairs[f] == x;
        assert more[f] == x;
      }
    }
  }

  lemma AliasesAfter(accounts: Accounts, from: Id, to: Id, target: string)
    requires UniqueAliases(accounts) && from in accounts && to in accounts && from != to
    requires !Taken(accounts, target) && !Reserved(accounts, target) && !Reserved(accounts, accounts[from].name)
    ensures UniqueAliases(Reserve(accounts, from, to, target))
  {
    assert target != accounts[from].name;
  }

  lemma SameTaken(a: Accounts, b: Accounts)
    requires a.Keys == b.Keys && forall x <- a :: a[x].name == b[x].name
    ensures forall n :: Taken(a, n) == Taken(b, n)
  {
    forall n ensures Taken(a, n) == Taken(b, n) {
      if Taken(a, n) {
        var x :| x in a && a[x].name == n;
        assert x in b && b[x].name == n;
      }
      if Taken(b, n) {
        var x :| x in b && b[x].name == n;
        assert x in a && a[x].name == n;
      }
    }
  }

  /**
   * As long as the reserved names are free, nobody has reserved the name of an account that takes part in no
   * transfer.
   */
  lemma OldNameFree(accounts: Accounts, pairs: map<Id, Id>, x: Id)
    requires Paired(accounts, pairs) && x in accounts && accounts[x].alias.None?
    ensures !Reserved(accounts, accounts[x].name)
  {
    hide Apart, UniqueAliases;
    if Reserved(accounts, accounts[x].name) {
      var z :| z in accounts && accounts[z].alias == Some(accounts[x].name);
      ReserverSends(accounts, pairs, z, accounts[x].name);
    }
  }

  // ---- maintenance ----

  /** Everybody is as at the start, or has taken the reserved name. */
  ghost predicate Progress(start: Accounts, now: Accounts) {
    now.Keys == start.Keys && forall x <- start ::
      now[x] == start[x] || (start[x].alias.Some? && now[x] == Account(start[x].alias.value, None))
  }

  lemma ProgressStart(start: Accounts)
    ensures Progress(start, start)
  {}

  lemma PairIsListed(accounts: Accounts, pairs: map<Id, Id>, f: Id)
    requires Loose(accounts, pairs) && f in pairs
    ensures Listed(accounts, f, pairs[f]) && UniqueNames(accounts) && f in accounts && accounts[f].alias.Some?
    ensures accounts[f].alias != Some(accounts[f].name)
  {
    assert Listed(accounts, f, pairs[f]);
  }

  /**
   * The pair of an account with an alias. For a sender, the account whose alias is its name is the receiver; for a
   * receiver there is no such account, and the account that has its alias as name is the sender.
   */
  lemma PairOf(accounts: Accounts, pairs: map<Id, Id>, x: Id) returns (f: Id, t: Id)
    requires Loose(accounts, pairs) && x in accounts && accounts[x].alias.Some?
    ensures f in pairs && t == pairs[f] && (x == f || x == t)
    ensures x == f ==> t in accounts && accounts[t].alias == Some(accounts[x].name)
    ensures x == t ==> f in accounts && accounts[f].name == accounts[x].alias.value && f != t
    ensures forall y <- accounts :: accounts[y].alias == Some(accounts[x].name) ==> x == f && y == t
    ensures forall y <- accounts :: x != f && accounts[y].name == accounts[x].alias.value ==> y == f
  {
    if x in pairs {
      f, t := x, pairs[x];
      assert Listed(accounts, f, t);
    } else {
      assert Receives(pairs, x);
      f :| f in pairs && pairs[f] == x;
      t := x;
      assert Listed(accounts, f, t);
      NoAliasOfReceiver(accounts, pairs, x);
    }
  }

  lemma NoAliasOfReceiver(accounts: Accounts, pairs: map<Id, Id>, x: Id)
    requires Loose(accounts, pairs) && x in accounts && x !in pairs && accounts[x].alias.Some?
    ensures !Reserved(accounts, accounts[x].name)
  {
    forall y <- accounts ensures accounts[y].alias != Some(accounts[x].name) {
      if accounts[y].alias.Some? {
        if y in pairs {
          assert Listed(accounts, y, pairs[y]);
        } else {
          assert Receives(pairs, y);
          var f :| f in pairs && pairs[f] == y;
          assert Listed(accounts, f, y);
        }
      }
    }
  }

  /** A pair whose name is free leaves the others as they were: listed, and free or taken. */
  lemma SwapKeeps(accounts: Accounts, pairs: map<Id, Id>, f: Id)
    requires Loose(accounts, pairs) && f in pairs
    ensures Listed(accounts, f, pairs[f])
    ensures var free := !Taken(accounts, accounts[f].alias.value);
      && (!free ==> !Open(accounts, pairs))
      && (free ==> Loose(Swapped(accounts, f, pairs[f]), pairs - {f}))
      && (free ==> Open(Swapped(accounts, f, pairs[f]), pairs - {f}) == Open(accounts, pairs))
  {
    hide Taken, Swapped, Loose, Open;
    PairIsListed(accounts, pairs, f);
    if Taken(accounts, accounts[f].alias.value) {
      NotOpen(accounts, pairs, f);
    } else {
      SwapLoose(accounts, pairs, f);
      SwapOpen(accounts, pairs, f);
    }
  }

  lemma NotOpen(accounts: Accounts, pairs: map<Id, Id>, f: Id)
    requires f in pairs && f in accounts && accounts[f].alias.Some? && Taken(accounts, accounts[f].alias.value)
    ensures !Open(accounts, pairs)
  {}

  lemma SwapLoose(accounts: Accounts, pairs: map<Id, Id>, f: Id)
    requires Loose(accounts, pairs) && f in pairs && Listed(accounts, f, pairs[f])
    requires !Taken(accounts, accounts[f].alias.value)
    ensures Loose(Swapped(accounts, f, pairs[f]), pairs - {f})
  {
    hide Taken, Receives, UniqueNames, AllListed, Outside;
    var after, rest := Swapped(accounts, f, pairs[f]), pairs - {f};
    assert UniqueNames(after) by { SwapUnique(accounts, f, pairs[f]); }
    assert AllListed(after, rest) by { SwapListed(accounts, pairs, f); }
    assert Outside(after, rest) by { SwapOutside(accounts, pairs, f); }
    forall x <- after | after[x].alias.Some? ensures x in rest || Receives(rest, x) {
      StillReceives(pairs, f, x);
    }
  }

  lemma StillReceives(pairs: map<Id, Id>, f: Id, x: Id)
    requires f in pairs && x != pairs[f]
    ensures Receives(pairs, x) ==> Receives(pairs - {f}, x)
  {
    if Receives(pairs, x) {
      var g :| g in pairs && pairs[g] == x;
      assert g in pairs - {f} && (pairs - {f})[g] == x;
    }
  }

  lemma SwapUnique(accounts: Accounts, f: Id, t: Id)
    requires Listed(accounts, f, t) && UniqueNames(accounts) && !Taken(accounts, accounts[f].alias.value)
    ensures UniqueNames(Swapped(accounts, f, t))
  {
    forall x <- accounts ensures accounts[x].name != accounts[f].alias.value {
      assert !Taken(accounts, accounts[f].alias.value);
    }
  }

  lemma SwapListed(accounts: Accounts, pairs: map<Id, Id>, f: Id)
    requires Loose(accounts, pairs) && f in pairs && Listed(accounts, f, pairs[f])
    ensures AllListed(Swapped(accounts, f, pairs[f]), pairs - {f})
  {
    hide Accounted, UniqueNames, UniqueAliases, Outside;
    var after := Swapped(accounts, f, pairs[f]);
    forall g <- pairs - {f} ensures Listed(after, g, pairs[g]) {
      assert Listed(accounts, g, pairs[g]);
    }
  }

  lemma SwapOutside(accounts: Accounts, pairs: map<Id, Id>, f: Id)
    requires Loose(accounts, pairs) && f in pairs && Listed(accounts, f, pairs[f])
    ensures Outside(Swapped(accounts, f, pairs[f]), pairs - {f})
  {
    hide Accounted, UniqueNames;
    var after := Swapped(accounts, f, pairs[f]);
    forall g <- pairs - {f} ensures Listed(accounts, g, pairs[g]) && g != pairs[f] {
      assert Listed(accounts, g, pairs[g]);
    }
  }

  /** The receiver's old name was not reserved, and no other sender has reserved what this one takes. */
  lemma SwapTaken(accounts: Accounts, f: Id, t: Id, name: string)
    requires Listed(accounts, f, t) && accounts[f].alias != Some(name) && accounts[t].name != name
    ensures Taken(Swapped(accounts, f, t), name) <==> Taken(accounts, name)
  {
    var after := Swapped(accounts, f, t);
    if Taken(accounts, name) {
      var x :| x in accounts && accounts[x].name == name;
      assert after[if x == f then t else x].name == name;
    }
    if Taken(after, name) {
      var x :| x in after && after[x].name == name;
      assert accounts[if x == t then f else x].name == name;
    }
  }

  lemma SwapOpen(accounts: Accounts, pairs: map<Id, Id>, f: Id)
    requires Loose(accounts, pairs) && f in pairs && Listed(accounts, f, pairs[f])
    requires !Taken(accounts, accounts[f].alias.value)
    ensures Open(Swapped(accounts, f, pairs[f]), pairs - {f}) == Open(accounts, pairs)
  {
    hide Taken, Accounted, UniqueNames;
    var after := Swapped(accounts, f, pairs[f]);
    forall g <- pairs - {f} ensures g in accounts && accounts[g].alias.Some? && after[g] == accounts[g]
      && Taken(after, accounts[g].alias.value) == Taken(accounts, accounts[g].alias.value)
    {
      assert Listed(accounts, g, pairs[g]);
      SwapTaken(accounts, f, pairs[f], accounts[g].alias.value);
    }
  }

  lemma ProgressStep(start: Accounts, now: Accounts, f: Id, t: Id)
    requires Progress(start, now) && Listed(now, f, t)
    ensures Progress(start, Swapped(now, f, t))
  {}

  lemma NothingLeft(accounts: Accounts, pairs: map<Id, Id>)
    requires Loose(accounts, pairs) && forall x <- accounts :: accounts[x].alias.None?
    ensures pairs == map[] && Open(accounts, pairs)
  {
    forall f ensures f !in pairs {
      if f in pairs {
        PairIsListed(accounts, pairs, f);
      }
    }
  }

  lemma ProgressEnds(start: Accounts, now: Accounts)
    requires Progress(start, now) && forall x <- now :: now[x].alias.None?
    ensures now == Maintained(start)
  {}

  /**
   * Everybody taking the reserved name is each receiver getting the sender's old name, and nobody else being
   * renamed.
   */
  lemma MaintainedApplies(accounts: Accounts, pairs: map<Id, Id>)
    requires Loose(accounts, pairs)
    ensures Applied(accounts, pairs, Maintained(accounts))
  {
    forall f <- pairs ensures Listed(accounts, f, pairs[f]) {}
  }

  // ---- the inputs ----

  predicate Distinct(names: seq<string>) {
    forall i, j :: 0 <= i < j < |names| ==> names[i] != names[j]
  }

  /** For any three names: a is transferred to b with the new name c reserved, c is created, and maintenance throws. */
  method ReservedNameCreated(a: string, b: string, c: string) returns (transferred: bool, created: bool,
                             maintained: bool)
    requires Distinct([a, b, c])
    ensures transferred && created && !maintained
  {
    hide Loose, Open;
    ThreeDistinct(a, b, c);
    var db := new Database(map[1 := Account(a, None), 2 := Account(b, None)]);
    transferred := db.TransferName(1, 2, Some(c), "");
    assert db.accounts == map[1 := Account(a, Some(c)), 2 := Account(b, Some(a))];
    created := db.CreateAccount(3, c);
    assert db.accounts[3].name == c;
    NotOpen(db.accounts, db.pairs, 1);
    maintained := db.ProcessNameTransfer();
  }

  lemma ThreeDistinct(a: string, b: string, c: string)
    requires Distinct([a, b, c])
    ensures a != b && a != c && b != c
  {
    var s := [a, b, c];
    assert s[0] != s[1] && s[0] != s[2] && s[1] != s[2];
  }

  // ---- a loop that does not end ----

  /** The order of names, character by character. */
  predicate Less(s: string, t: string) {
    t != "" && (s == "" || s[0] < t[0] || (s[0] == t[0] && Less(s[1..], t[1..])))
  }

  /** lower_bound("") of the alias index. */
  ghost predicate IsFirst(accounts: Accounts, x: Id) {
    && x in accounts && accounts[x].alias.Some?
    && forall y <- accounts :: accounts[y].alias.Some? ==> !Less(accounts[y].alias.value, accounts[x].alias.value)
  }

  /** find of the alias index, in which a key can occur more than once. */
  ghost predicate FindsAlias(accounts: Accounts, alias: string, r: Option<Id>) {
    if r.None? then !Reserved(accounts, alias) else r.value in accounts && accounts[r.value].alias == Some(alias)
  }

  ghost predicate FindsName(accounts: Accounts, name: string, r: Option<Id>) {
    if r.None? then !Taken(accounts, name) else r.value in accounts && accounts[r.value].name == name
  }

  /** One rename; None when there is no alias or the name belongs to somebody else. */
  function Renamed(accounts: Accounts, x: Id): Option<Accounts>
    requires x in accounts
  {
    var alias := accounts[x].alias;
    if alias.None? || exists y <- accounts :: y != x && accounts[y].name == alias.value then None
    else Some(accounts[x := Account(alias.value, None)])
  }

  /** Both renames of a pass: y after x. */
  function RenamedBoth(accounts: Accounts, x: Id, y: Id): Option<Accounts>
    requires x in accounts && y in accounts
  {
    match Renamed(accounts, x)
    case None => None
    case Some(next) => Renamed(next, y)
  }

  /** One pass of the loop: the account with the first alias, and what the two look-ups find. */
  ghost predicate PassOf(accounts: Accounts, x: Id, a: Option<Id>, n: Option<Id>, r: Option<Accounts>) {
    && IsFirst(accounts, x) && FindsAlias(accounts, accounts[x].name, a)
    && FindsName(accounts, accounts[x].alias.value, n)
    && r == if a.Some? then RenamedBoth(accounts, x, a.value)
            else if n.Some? then RenamedBoth(accounts, n.value, x) else Some(accounts)
  }

  ghost predicate Passes(accounts: Accounts, r: Option<Accounts>) {
    exists x, a, n :: PassOf(accounts, x, a, n, r)
  }

  /** As above, and c passes its name on to d and reserves e: the name c is now reserved twice. */
  function TwiceReserved(a: string, b: string, c: string, d: string, e: string): Accounts {
    map[1 := Account(a, Some(c)), 2 := Account(b, Some(a)), 3 := Account(c, Some(e)), 4 := Account(d, Some(c))]
  }

  /** The first pass pairs account 3 with account 1 instead of account 4. */
  function WrongPair(a: string, b: string, c: string, d: string, e: string): Accounts {
    TwiceReserved(a, b, c, d, e)[3 := Account(e, None)][1 := Account(c, None)]
  }

  lemma FiveDistinct(a: string, b: string, c: string, d: string, e: string)
    requires Distinct([a, b, c, d, e])
    ensures a != b && a != c && a != d && a != e && b != c && b != d && b != e && c != d && c != e && d != e
  {
    var s := [a, b, c, d, e];
    assert s[0] != s[1] && s[0] != s[2] && s[0] != s[3] && s[0] != s[4];
    assert s[1] != s[2] && s[1] != s[3] && s[1] != s[4];
    assert s[2] != s[3] && s[2] != s[4] && s[3] != s[4];
  }

  lemma FirstReservation(a: string, b: string, c: string, d: string)
    requires a != b && a != c && a != d && b != c && b != d && c != d
    ensures var s: Accounts := map[1 := Account(a, None), 2 := Account(b, None), 4 := Account(d, None)];
      && UniqueNames(s) && MayTransfer(s, 1, 2, Some(c), "")
      && Next(s, Transfer(1, 2, Some(c), ""))
         == map[1 := Account(a, Some(c)), 2 := Account(b, Some(a)), 4 := Account(d, None)]
  {}

  lemma Creation(a: string, b: string, c: string, d: string)
    requires a != c && b != c && c != d
    ensures var s: Accounts := map[1 := Account(a, Some(c)), 2 := Account(b, Some(a)), 4 := Account(d, None)];
      && MayCreate(s, 3, c)
      && Next(s, Create(3, c)) == s[3 := Account(c, None)]
  {}

  lemma SecondReservation(a: string, b: string, c: string, d: string, e: string)
    requires a != e && b != e && c != e && d != e
    ensures var s: Accounts :=
        map[1 := Account(a, Some(c)), 2 := Account(b, Some(a)), 4 := Account(d, None)][3 := Account(c, None)];
      && MayTransfer(s, 3, 4, Some(e), "") && Next(s, Transfer(3, 4, Some(e), "")) == TwiceReserved(a, b, c, d, e)
  {}

  method TwiceReservedReached(a: string, b: string, c: string, d: string, e: string) returns (db: Database, ok: bool)
    requires Distinct([a, b, c, d, e])
    ensures ok && db.accounts == TwiceReserved(a, b, c, d, e)
  {
    hide Loose, Open, Paired, Next, MayTransfer, MayCreate, TwiceReserved, UniqueNames;
    FiveDistinct(a, b, c, d, e);
    FirstReservation(a, b, c, d);
    Creation(a, b, c, d);
    SecondReservation(a, b, c, d, e);
    db := new Database(map[1 := Account(a, None), 2 := Account(b, None), 4 := Account(d, None)]);
    var first := db.TransferName(1, 2, Some(c), "");
    var created := db.CreateAccount(3, c);
    var second := db.TransferName(3, 4, Some(e), "");
    ok := first && created && second;
  }

  /**
   * From there, if e comes first and a before c, a pass can lead to accounts that no further pass changes, although
   * aliases are left: the loop does not end.
   */
  lemma EndlessLoop(a: string, b: string, c: string, d: string, e: string)
    requires Distinct([a, b, c, d, e]) && !Less(a, e) && !Less(c, e) && Less(a, c)
    ensures var stuck := WrongPair(a, b, c, d, e);
      && Passes(TwiceReserved(a, b, c, d, e), Some(stuck)) && (forall r :: Passes(stuck, r) <==> r == Some(stuck))
      && exists x <- stuck :: stuck[x].alias.Some?
  {
    hide Less, Passes;
    FirstPass(a, b, c, d, e);
    LaterPass(a, b, c, d, e);
    assert WrongPair(a, b, c, d, e)[2].alias.Some?;
  }

  lemma NotBelowItself(s: string)
    ensures !Less(s, s)
  {}

  lemma {:induction false} NotBoth(s: string, t: string)
    ensures !(Less(s, t) && Less(t, s))
  {
    if s != "" && t != "" {
      NotBoth(s[1..], t[1..]);
    }
  }

  lemma FirstPass(a: string, b: string, c: string, d: string, e: string)
    requires Distinct([a, b, c, d, e]) && !Less(a, e) && !Less(c, e)
    ensures Passes(TwiceReserved(a, b, c, d, e), Some(WrongPair(a, b, c, d, e)))
  {
    hide Less, Distinct, RenamedBoth;
    FiveDistinct(a, b, c, d, e);
    NotBelowItself(e);
    var s := TwiceReserved(a, b, c, d, e);
    FirstPassRenames(a, b, c, d, e);
    assert PassOf(s, 3, Some(1), None, Some(WrongPair(a, b, c, d, e)));
  }

  lemma FreeRename(accounts: Accounts, x: Id, alias: string)
    requires x in accounts && accounts[x].alias == Some(alias) && forall y <- accounts :: accounts[y].name != alias
    ensures Renamed(accounts, x) == Some(accounts[x := Account(alias, None)])
  {}

  lemma FirstPassRenames(a: string, b: string, c: string, d: string, e: string)
    requires a != e && b != e && c != e && d != e && a != c && b != c && c != d
    ensures RenamedBoth(TwiceReserved(a, b, c, d, e), 3, 1) == Some(WrongPair(a, b, c, d, e))
  {
    hide Renamed;
    var s: Accounts := TwiceReserved(a, b, c, d, e);
    FreeRename(s, 3, e);
    FreeRename(s[3 := Account(e, None)], 1, c);
  }

  lemma LaterPass(a: string, b: string, c: string, d: string, e: string)
    requires Distinct([a, b, c, d, e]) && Less(a, c)
    ensures var s := WrongPair(a, b, c, d, e); forall r :: Passes(s, r) <==> r == Some(s)
  {
    hide Less, Distinct, RenamedBoth;
    FiveDistinct(a, b, c, d, e);
    NotBelowItself(a);
    NotBoth(a, c);
    var s := WrongPair(a, b, c, d, e);
    assert IsFirst(s, 2) && forall x :: IsFirst(s, x) ==> x == 2;
    assert !Reserved(s, b) && !Taken(s, a);
    assert PassOf(s, 2, None, None, Some(s));
    forall r, x, m, n | PassOf(s, x, m, n, r) ensures r == Some(s) {}
  }

  /** There are such names. */
  lemma EndlessExists() returns (s: Accounts, stuck: Accounts)
    ensures s == TwiceReserved("a", "b", "c", "d", "A") && Passes(s, Some(stuck))
    ensures (forall r :: Passes(stuck, r) <==> r == Some(stuck)) && exists x <- stuck :: stuck[x].alias.Some?
  {
    hide Passes;
    s, stuck := TwiceReserved("a", "b", "c", "d", "A"), WrongPair("a", "b", "c", "d", "A");
    var names := ["a", "b", "c", "d", "A"];
    forall i, j | 0 <= i < j < 5 ensures names[i] != names[j] {
      assert names[i][0] != names[j][0];
    }
    EndlessLoop("a", "b", "c", "d", "A");
  }
}
