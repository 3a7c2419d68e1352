/**
 What payments and cancellations that race each other can undo, and exactly when they do: paid orders,
 rows past their deadline, and single purchases.
 */
module Races {
  import opened Tables
  import opened Protocol
  import opened Lifecycle
  import opened Purchases
  import opened Interleaving
  import opened BetweenWrites

  /** Everything that holds of an earlier point of the moves is kept at every later one. */
  ghost predicate Lasts(stock: map<nat, nat>, moves: seq<Move>, keeps: (System, System) -> bool) {
    forall i, j :: 0 <= i <= j <= |moves| ==> keeps(Moves(Start(stock), moves[..i]), Moves(Start(stock), moves[..j]))
  }

  ghost predicate Transitive(keeps: (System, System) -> bool) {
    && (forall a :: keeps(a, a))
    && (forall a, b, c :: keeps(a, b) && keeps(b, c) ==> keeps(a, c))
  }

  ghost predicate DropsExactlyWhen(
      sys: System, move: Move, keeps: (System, System) -> bool, drops: (System, Move) -> bool) {
    Constraints(sys.state.db) && (keeps(sys, Advance(sys, move)) <==> !drops(sys, move))
  }

  /** What every move drops exactly when it is bad lasts exactly when no move is bad. */
  lemma LastsExactlyWhen(
      stock: map<nat, nat>, moves: seq<Move>, keeps: (System, System) -> bool, drops: (System, Move) -> bool)
    requires Transitive(keeps)
    requires forall i :: 0 <= i < |moves| ==> DropsExactlyWhen(Moves(Start(stock), moves[..i]), moves[i], keeps, drops)
    ensures Lasts(stock, moves, keeps) <==> Never(stock, moves, drops)
  {
    hide Advance, Constraints, Start, Moves;
    if Lasts(stock, moves, keeps) {
      forall i | 0 <= i < |moves| ensures !drops(Moves(Start(stock), moves[..i]), moves[i]) {
        MovesUpTo(stock, moves, i);
        assert DropsExactlyWhen(Moves(Start(stock), moves[..i]), moves[i], keeps, drops);
      }
    }
    if Never(stock, moves, drops) {
      forall i, j | 0 <= i <= j <= |moves|
        ensures keeps(Moves(Start(stock), moves[..i]), Moves(Start(stock), moves[..j]))
      {
        KeptFrom(stock, moves, i, j, keeps, drops);
      }
    }
  }

  lemma {:induction false} KeptFrom(stock: map<nat, nat>, moves: seq<Move>, i: nat, j: nat,
                                    keeps: (System, System) -> bool, drops: (System, Move) -> bool)
    requires i <= j <= |moves| && Transitive(keeps) && Never(stock, moves, drops)
    requires forall i :: 0 <= i < |moves| ==> DropsExactlyWhen(Moves(Start(stock), moves[..i]), moves[i], keeps, drops)
    ensures keeps(Moves(Start(stock), moves[..i]), Moves(Start(stock), moves[..j]))
  {
    hide Advance, Constraints, Start, Moves;
    if i < j {
      KeptFrom(stock, moves, i, j - 1, keeps, drops);
      MovesUpTo(stock, moves, j - 1);
      assert DropsExactlyWhen(Moves(Start(stock), moves[..j - 1]), moves[j - 1], keeps, drops);
    }
  }

  // ---------------------------------------------------------------- paid orders

  ghost predicate SameIfPaid(sys: System, after: System) {
    && |sys.state.db.orders| <= |after.state.db.orders|
    && forall o :: 0 <= o < |sys.state.db.orders| && sys.state.db.orders[o].status == Paid ==>
         after.state.db.orders[o] == sys.state.db.orders[o]
  }

  /** A cancellation commits on an order paid since its status was read. */
  predicate FailsPaidOrder(sys: System, move: Move) {
    && Constraints(sys.state.db)
    && match move
       case Commit(k) => CommitsTo(sys, k, Cancelling) && sys.state.db.orders[sys.settlements[k].order].status == Paid
       case _ => false
  }

  lemma SettledStayPaidExactlyWhen(sys: System, k: nat)
    requires Constraints(sys.state.db)
    ensures SameIfPaid(sys, Committed(sys, k)) <==> !FailsPaidOrder(sys, Commit(k))
  {
    hide Constraints;
  }

  lemma WritesKeepPaidAndGone(sys: System, move: Move)
    requires Constraints(sys.state.db) && !move.Commit? && !move.Elsewhere?
    ensures SameIfPaid(sys, Advance(sys, move)) && GoneStay(sys, Advance(sys, move))
  {
    hide Constraints;
  }

  lemma KeepsBoth(sys: System, after: System)
    requires Keeps(sys.state, after.state)
    ensures SameIfPaid(sys, after) && GoneStay(sys, after)
  {
  }

  lemma MoveKeepsPaidExactlyWhen(sys: System, move: Move)
    requires Constraints(sys.state.db)
    ensures SameIfPaid(sys, Advance(sys, move)) <==> !FailsPaidOrder(sys, move)
  {
    match move {
      case Commit(k) => SettledStayPaidExactlyWhen(sys, k);
      case Elsewhere(step) =>
        Lifecycle.StepKeeps(sys.state, step);
        hide Constraints, Next, Keeps, SameIfPaid, GoneStay;
        KeepsBoth(sys, Advance(sys, move));
      case _ => WritesKeepPaidAndGone(sys, move);
    }
    hide Constraints, Advance, SameIfPaid, GoneStay, CommitsTo;
  }

  /**
   Between reads and writes every paid order stays as it was paid exactly when no cancellation commits on an
   order that was paid after its status was read.
   */
  lemma PaidStaysPaidExactlyWhen(stock: map<nat, nat>, moves: seq<Move>)
    ensures Lasts(stock, moves, SameIfPaid) <==> Never(stock, moves, FailsPaidOrder)
  {
    hide Advance, Constraints, Moves, Start, FailsPaidOrder;
    forall i | 0 <= i < |moves|
      ensures DropsExactlyWhen(Moves(Start(stock), moves[..i]), moves[i], SameIfPaid, FailsPaidOrder)
    {
      MoveKeepsPaidExactlyWhen(Moves(Start(stock), moves[..i]), moves[i]);
    }
    LastsExactlyWhen(stock, moves, SameIfPaid, FailsPaidOrder);
  }

  // ---------------------------------------------------------------- rows past their deadline

  /** Rows past their deadline and no longer live stay so. */
  ghost predicate GoneStay(sys: System, after: System) {
    && sys.state.now <= after.state.now && |sys.state.db.reservations| <= |after.state.db.reservations|
    && forall r :: 0 <= r < |sys.state.db.reservations| && Gone(sys.state.db.reservations[r], sys.state.now) ==>
         Gone(after.state.db.reservations[r], after.state.now)
  }

  /** A payment that read its order in time commits when the row is gone. */
  predicate RevivesGone(sys: System, move: Move) {
    && Constraints(sys.state.db)
    && match move
       case Commit(k) =>
         && CommitsTo(sys, k, Paying)
         && Gone(sys.state.db.reservations[sys.state.db.orders[sys.settlements[k].order].reservation], sys.state.now)
       case _ => false
  }

  lemma SettledStayGoneExactlyWhen(sys: System, k: nat)
    requires Constraints(sys.state.db)
    ensures GoneStay(sys, Committed(sys, k)) <==> !RevivesGone(sys, Commit(k))
  {
    ConstraintsOf(sys.state.db);
    hide Constraints;
  }

  lemma MoveKeepsGoneExactlyWhen(sys: System, move: Move)
    requires Constraints(sys.state.db)
    ensures GoneStay(sys, Advance(sys, move)) <==> !RevivesGone(sys, move)
  {
    match move {
      case Commit(k) => SettledStayGoneExactlyWhen(sys, k);
      case Elsewhere(step) =>
        Lifecycle.StepKeeps(sys.state, step);
        hide Constraints, Next, Keeps, SameIfPaid, GoneStay;
        KeepsBoth(sys, Advance(sys, move));
      case _ => WritesKeepPaidAndGone(sys, move);
    }
    hide Constraints, Advance, SameIfPaid, GoneStay, CommitsTo;
  }

  /**
   Between reads and writes no row past its deadline comes back exactly when no payment commits on a row
   that is gone by then.
   */
  lemma GoneStayGoneExactlyWhen(stock: map<nat, nat>, moves: seq<Move>)
    ensures Lasts(stock, moves, GoneStay) <==> Never(stock, moves, RevivesGone)
  {
    hide Advance, Constraints, Moves, Start, RevivesGone;
    forall i | 0 <= i < |moves|
      ensures DropsExactlyWhen(Moves(Start(stock), moves[..i]), moves[i], GoneStay, RevivesGone)
    {
      MoveKeepsGoneExactlyWhen(Moves(Start(stock), moves[..i]), moves[i]);
    }
    LastsExactlyWhen(stock, moves, GoneStay, RevivesGone);
  }

  lemma MoveExpiresGone(sys: System, move: Move)
    requires Constraints(sys.state.db) && ExpiredAreGone(sys.state)
    ensures ExpiredAreGone(Advance(sys, move).state)
  {
    match move
    case Elsewhere(step) => Lifecycle.StepKeeps(sys.state, step);
    case _ => OtherMovesExpireNothing(sys, move);
  }

  lemma OtherMovesExpireNothing(sys: System, move: Move)
    requires Constraints(sys.state.db) && ExpiredAreGone(sys.state) && !move.Elsewhere?
    ensures ExpiredAreGone(Advance(sys, move).state)
  {
    ConstraintsOf(sys.state.db);
    hide Constraints;
  }

  lemma {:induction false} ExpiredAreGoneOverMoves(stock: map<nat, nat>, moves: seq<Move>)
    ensures ExpiredAreGone(Moves(Start(stock), moves).state)
  {
    hide Advance, Constraints;
    if moves != [] {
      ExpiredAreGoneOverMoves(stock, moves[..|moves| - 1]);
      MoveExpiresGone(Moves(Start(stock), moves[..|moves| - 1]), moves[|moves| - 1]);
    }
  }

  /** Then a row that expired at one point is live at no later one. */
  lemma ExpiredNeverComesBackBetweenWrites(stock: map<nat, nat>, moves: seq<Move>, i: nat, j: nat, r: nat)
    requires i <= j <= |moves| && Never(stock, moves, RevivesGone)
    ensures var before := Moves(Start(stock), moves[..i]).state.db.reservations;
      var after := Moves(Start(stock), moves[..j]).state.db.reservations;
      r < |before| && before[r].status == Expired ==> r < |after| && !after[r].Live()
  {
    hide Advance, Constraints, Moves, Start, RevivesGone;
    GoneStayGoneExactlyWhen(stock, moves);
    ExpiredAreGoneOverMoves(stock, moves[..i]);
    assert GoneStay(Moves(Start(stock), moves[..i]), Moves(Start(stock), moves[..j]));
  }

  // ---------------------------------------------------------------- single purchases

  ghost predicate OnePaid(sys: System) {
    AtMostOnePaid(sys.state.db)
  }

  /** A payment commits when its buyer has another paid order for the sale. */
  predicate PaysSecond(sys: System, move: Move) {
    && Constraints(sys.state.db)
    && match move
       case Commit(k) => CommitsTo(sys, k, Paying) && PaidAnother(sys.state.db, sys.settlements[k].order)
       case Elsewhere(step) => PaidAgain(sys.state, step)
       case _ => false
  }

  lemma CancelledTablesKeepOne(db: Db, o: nat)
    requires Constraints(db) && AtMostOnePaid(db) && o < |db.orders|
    ensures AtMostOnePaid(CancelledTables(db, o))
  {
    hide Constraints;
  }

  lemma CommitKeepsOneExactlyWhen(sys: System, k: nat)
    requires Constraints(sys.state.db) && OnePaid(sys)
    ensures OnePaid(Committed(sys, k)) <==> !PaysSecond(sys, Commit(k))
  {
    if Commits(sys, k) {
      PaidTablesKeepOneExactlyWhen(sys.state.db, sys.settlements[k].order);
      CancelledTablesKeepOne(sys.state.db, sys.settlements[k].order);
    }
    hide Constraints, PaidTables, CancelledTables, AtMostOnePaid, PaidAnother;
  }

  lemma WritesPayNobody(sys: System, move: Move)
    requires Constraints(sys.state.db) && AllFit(sys) && !move.Commit? && !move.Elsewhere?
    ensures SamePaid(sys.state.db, Advance(sys, move).state.db)
  {
    hide Constraints;
    match move
    case Insert(w) =>
      if w < |sys.workers| {
        assert Fits(sys.state.db, sys.workers[w]);
      }
    case _ =>
  }

  lemma MoveKeepsOneExactlyWhen(sys: System, move: Move)
    requires Constraints(sys.state.db) && AllFit(sys) && OnePaid(sys)
    ensures OnePaid(Advance(sys, move)) <==> !PaysSecond(sys, move)
  {
    match move {
      case Commit(k) => CommitKeepsOneExactlyWhen(sys, k);
      case Elsewhere(step) => StepKeepsOneExactlyWhen(sys.state, step);
      case _ =>
        WritesPayNobody(sys, move);
        SamePaidSameBuyers(sys.state.db, Advance(sys, move).state.db);
    }
    hide Constraints, Advance, AtMostOnePaid, CommitsTo, PaidAgain, PaidAnother;
  }

  /**
   Between reads and writes nobody ever has two paid orders for one sale exactly when no payment commits for
   a buyer who has another paid order for it.
   */
  lemma OnePaidPurchaseBetweenWritesExactlyWhen(stock: map<nat, nat>, moves: seq<Move>)
    ensures Throughout(stock, moves, OnePaid) <==> Never(stock, moves, PaysSecond)
  {
    assert OnePaid(Start(stock));
    hide Advance, Constraints, Moves, Start, AllFit, PaysSecond, OnePaid;
    forall i | 0 <= i < |moves|
      ensures BreaksExactlyWhen(Moves(Start(stock), moves[..i]), moves[i], OnePaid, PaysSecond)
    {
      FitOverMoves(stock, moves[..i]);
      if OnePaid(Moves(Start(stock), moves[..i])) {
        MoveKeepsOneExactlyWhen(Moves(Start(stock), moves[..i]), moves[i]);
      }
    }
    ThroughoutExactlyWhen(stock, moves, OnePaid, PaysSecond);
  }
}
