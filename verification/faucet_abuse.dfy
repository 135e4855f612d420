/** The faucet-abuse store (backend/faucetAbuse.js), which forgets old entries on every write.
    Forgetting is shown to be unobservable, and the limits to hold in every time window. */
module FaucetAbuse {

  /** Milliseconds. */
  type Time = nat

  const HOUR_MS: int := 60 * 60 * 1000
  const DAY_MS: int := 24 * HOUR_MS
  const WALLET_CREATE_WINDOW_MS: int := HOUR_MS
  const WALLET_CREATE_LIMIT: nat := 3
  const WALLET_CREATE_BLOCK_MS: int := DAY_MS
  const FAUCET_IP_WALLET_LIMIT: nat := 2
  const FAUCET_IP_WINDOW_MS: int := DAY_MS
  const MIN_WALLET_AGE_MS: int := HOUR_MS
  const CREATION_RETENTION_MS: int := 2 * DAY_MS

  type Ip = string
  type Wallet = string

  datatype Creation = Creation(createdAt: Time, ip: Ip)

  datatype Claim = Claim(wallet: Wallet, fingerprint: string, at: Time)

  datatype Store = Store(walletCreations: map<Wallet, Creation>, ipCreations: map<Ip, seq<Time>>,
                         ipCreateBlockedUntil: map<Ip, Time>, walletClaimCounts: map<Wallet, nat>,
                         ipClaims: map<Ip, seq<Claim>>)

  const EMPTY: Store := Store(map[], map[], map[], map[], map[])

  function Itself(t: Time): Time {
    t
  }

  function ClaimedAt(c: Claim): Time {
    c.at
  }

  /** The entries that are still inside the window that ends now. */
  function Within<T>(xs: seq<T>, at: T -> Time, window: int, now: Time): seq<T> {
    if xs == [] then []
    else (if now - at(xs[0]) < window then [xs[0]] else []) + Within(xs[1..], at, window, now)
  }

  function Creations(s: Store, ip: Ip): seq<Time> {
    if ip in s.ipCreations then s.ipCreations[ip] else []
  }

  function Claims(s: Store, ip: Ip): seq<Claim> {
    if ip in s.ipClaims then s.ipClaims[ip] else []
  }

  function BlockedUntil(s: Store, ip: Ip): Time {
    if ip in s.ipCreateBlockedUntil then s.ipCreateBlockedUntil[ip] else 0
  }

  function RecentCreations(s: Store, ip: Ip, now: Time): seq<Time> {
    Within(Creations(s, ip), Itself, WALLET_CREATE_WINDOW_MS, now)
  }

  function RecentClaims(s: Store, ip: Ip, now: Time): seq<Claim> {
    Within(Claims(s, ip), ClaimedAt, FAUCET_IP_WINDOW_MS, now)
  }

  /** The lists cut down to their windows; empty lists go. */
  function Kept<T>(lists: map<Ip, seq<T>>, at: T -> Time, window: int, now: Time): map<Ip, seq<T>> {
    map ip | ip in lists && Within(lists[ip], at, window, now) != [] :: Within(lists[ip], at, window, now)
  }

  /** prune. */
  function Pruned(s: Store, now: Time): Store {
    Store(map w | w in s.walletCreations
          && now - s.walletCreations[w].createdAt <= CREATION_RETENTION_MS :: s.walletCreations[w],
          Kept(s.ipCreations, Itself, WALLET_CREATE_WINDOW_MS, now),
          map ip | ip in s.ipCreateBlockedUntil && s.ipCreateBlockedUntil[ip] > now :: s.ipCreateBlockedUntil[ip],
          s.walletClaimCounts,
          Kept(s.ipClaims, ClaimedAt, FAUCET_IP_WINDOW_MS, now))
  }

  // -------------------------------------------------------------- operations

  datatype Decision = Allowed | Refused(retryAfterSeconds: int, reason: string)

  datatype Operation =
    | DecideCreation(ip: Ip)
    | RecordCreation(wallet: Wallet, ip: Ip)
    | AskAge(wallet: Wallet)
    | DecideClaim(ip: Ip, wallet: Wallet)
    | RecordClaim(ip: Ip, wallet: Wallet, fingerprint: string)
    | OtherWrite

  datatype Answer = Decided(decision: Decision) | TooNew(tooNew: bool) | Done

  /** Math.ceil(ms / 1000). */
  function Seconds(ms: int): int {
    (ms + 999) / 1000
  }

  /** Whether walletCreateDecision finds the velocity exceeded, and so writes a block. */
  predicate Trips(s: Store, ip: Ip, now: Time) {
    BlockedUntil(s, ip) <= now && |RecentCreations(s, ip, now)| >= WALLET_CREATE_LIMIT
  }

  function CreationDecision(s: Store, ip: Ip, now: Time): Decision {
    if BlockedUntil(s, ip) > now then Refused(Seconds(BlockedUntil(s, ip) - now), "blocked")
    else if |RecentCreations(s, ip, now)| >= WALLET_CREATE_LIMIT
    then Refused(Seconds(WALLET_CREATE_BLOCK_MS), "velocity")
    else Allowed
  }

  predicate WalletTooNew(s: Store, wallet: Wallet, now: Time) {
    wallet in s.walletCreations && now - s.walletCreations[wallet].createdAt < MIN_WALLET_AGE_MS
  }

  function WalletsOf(claims: seq<Claim>): set<Wallet> {
    set c | c in claims :: c.wallet
  }

  function ClaimDecision(s: Store, ip: Ip, wallet: Wallet, now: Time): Decision {
    var wallets := WalletsOf(RecentClaims(s, ip, now));
    if wallet in wallets then Allowed
    else if |wallets| >= FAUCET_IP_WALLET_LIMIT then Refused(Seconds(FAUCET_IP_WINDOW_MS), "ip_wallet_limit")
    else Allowed
  }

  function Block(s: Store, ip: Ip, now: Time): Store {
    s.(ipCreateBlockedUntil := s.ipCreateBlockedUntil[ip := now + WALLET_CREATE_BLOCK_MS])
  }

  function AddCreation(s: Store, wallet: Wallet, ip: Ip, now: Time): Store {
    s.(walletCreations := s.walletCreations[wallet := Creation(now, ip)],
       ipCreations := s.ipCreations[ip := Creations(s, ip) + [now]])
  }

  function ClaimCount(s: Store, wallet: Wallet): nat {
    if wallet in s.walletClaimCounts then s.walletClaimCounts[wallet] else 0
  }

  function AddClaim(s: Store, ip: Ip, wallet: Wallet, fingerprint: string, now: Time): Store {
    s.(ipClaims := s.ipClaims[ip := Claims(s, ip) + [Claim(wallet, fingerprint, now)]],
       walletClaimCounts := s.walletClaimCounts[wallet := ClaimCount(s, wallet) + 1])
  }

  /** What the operation changes, before the write prunes. */
  function Changed(s: Store, op: Operation, now: Time): Store {
    match op
    case DecideCreation(ip) => if Trips(s, ip, now) then Block(s, ip, now) else s
    case RecordCreation(wallet, ip) => AddCreation(s, wallet, ip, now)
    case RecordClaim(ip, wallet, fingerprint) => AddClaim(s, ip, wallet, fingerprint, now)
    case _ => s
  }

  predicate Writes(s: Store, op: Operation, now: Time) {
    op.RecordCreation? || op.RecordClaim? || op.OtherWrite? || (op.DecideCreation? && Trips(s, op.ip, now))
  }

  function AnswerTo(s: Store, op: Operation, now: Time): Answer {
    match op
    case DecideCreation(ip) => Decided(CreationDecision(s, ip, now))
    case AskAge(wallet) => TooNew(WalletTooNew(s, wallet, now))
    case DecideClaim(ip, wallet) => Decided(ClaimDecision(s, ip, wallet, now))
    case _ => Done
  }

  /** The store as it is: every write prunes. */
  function Next(s: Store, op: Operation, now: Time): Store {
    if Writes(s, op, now) then Pruned(Changed(s, op, now), now) else s
  }

  // --------------------------------------------- forgetting is unobservable

  lemma {:induction false} WithinLater<T>(xs: seq<T>, at: T -> Time, window: int, now: Time, later: Time)
    requires now <= later
    ensures Within(Within(xs, at, window, now), at, window, later) == Within(xs, at, window, later)
  {
    if xs != [] {
      WithinLater(xs[1..], at, window, now, later);
      var rest := Within(xs[1..], at, window, now);
      assert ([xs[0]] + rest)[1..] == rest;
      assert [] + rest == rest;
    }
  }

  lemma {:induction false} WithinAppend<T>(xs: seq<T>, x: T, at: T -> Time, window: int, now: Time)
    ensures Within(xs + [x], at, window, now) ==
              Within(xs, at, window, now) + (if now - at(x) < window then [x] else [])
  {
    if xs == [] {
      assert xs + [x] == [x] && [x][1..] == [];
    } else {
      assert (xs + [x])[1..] == xs[1..] + [x];
      WithinAppend(xs[1..], x, at, window, now);
    }
  }

  predicate SameCreations(p: Store, f: Store, ip: Ip, now: Time) {
    RecentCreations(p, ip, now) == RecentCreations(f, ip, now)
  }

  predicate SameClaims(p: Store, f: Store, ip: Ip, now: Time) {
    RecentClaims(p, ip, now) == RecentClaims(f, ip, now)
  }

  predicate SameBlock(p: Store, f: Store, ip: Ip, now: Time) {
    BlockedUntil(p, ip) > now || BlockedUntil(f, ip) > now ==> BlockedUntil(p, ip) == BlockedUntil(f, ip)
  }

  /** What is forgotten about a wallet is that it is old. */
  predicate SameAge(p: Store, f: Store, wallet: Wallet, now: Time) {
    && (wallet in p.walletCreations ==>
        wallet in f.walletCreations && p.walletCreations[wallet] == f.walletCreations[wallet])
    && (wallet in f.walletCreations && wallet !in p.walletCreations ==>
          now - f.walletCreations[wallet].createdAt > CREATION_RETENTION_MS)
  }

  /** The pruned store and the one that forgets nothing agree on everything still in a window. */
  ghost predicate Alike(p: Store, f: Store, now: Time) {
    && p.walletClaimCounts == f.walletClaimCounts
    && (forall ip :: SameCreations(p, f, ip, now))
    && (forall ip :: SameClaims(p, f, ip, now))
    && (forall ip :: SameBlock(p, f, ip, now))
    && (forall wallet :: SameAge(p, f, wallet, now))
  }

  lemma AlikeLater(p: Store, f: Store, now: Time, later: Time)
    requires Alike(p, f, now) && now <= later
    ensures Alike(p, f, later)
  {
    forall ip ensures SameCreations(p, f, ip, later) {
      assert SameCreations(p, f, ip, now);
      WithinLater(Creations(p, ip), Itself, WALLET_CREATE_WINDOW_MS, now, later);
      WithinLater(Creations(f, ip), Itself, WALLET_CREATE_WINDOW_MS, now, later);
    }
    forall ip ensures SameClaims(p, f, ip, later) {
      assert SameClaims(p, f, ip, now);
      WithinLater(Claims(p, ip), ClaimedAt, FAUCET_IP_WINDOW_MS, now, later);
      WithinLater(Claims(f, ip), ClaimedAt, FAUCET_IP_WINDOW_MS, now, later);
    }
    forall ip ensures SameBlock(p, f, ip, later) {
      assert SameBlock(p, f, ip, now);
    }
    forall wallet ensures SameAge(p, f, wallet, later) {
      assert SameAge(p, f, wallet, now);
    }
  }

  lemma PruningKeepsAlike(p: Store, f: Store, now: Time)
    requires Alike(p, f, now)
    ensures Alike(Pruned(p, now), f, now)
  {
    var q := Pruned(p, now);
    forall ip ensures SameCreations(q, f, ip, now) {
      assert SameCreations(p, f, ip, now);
      WithinLater(Creations(p, ip), Itself, WALLET_CREATE_WINDOW_MS, now, now);
      assert Creations(q, ip) == RecentCreations(p, ip, now);
    }
    forall ip ensures SameClaims(q, f, ip, now) {
      assert SameClaims(p, f, ip, now);
      WithinLater(Claims(p, ip), ClaimedAt, FAUCET_IP_WINDOW_MS, now, now);
      assert Claims(q, ip) == RecentClaims(p, ip, now);
    }
    forall ip ensures SameBlock(q, f, ip, now) {
      assert SameBlock(p, f, ip, now);
    }
    forall wallet ensures SameAge(q, f, wallet, now) {
      assert SameAge(p, f, wallet, now);
    }
  }

  lemma AddCreationAlike(p: Store, f: Store, wallet: Wallet, ip: Ip, now: Time)
    requires Alike(p, f, now)
    ensures Alike(AddCreation(p, wallet, ip, now), AddCreation(f, wallet, ip, now), now)
  {
    var p', f' := AddCreation(p, wallet, ip, now), AddCreation(f, wallet, ip, now);
    forall i ensures SameCreations(p', f', i, now) {
      assert SameCreations(p, f, i, now);
      WithinAppend(Creations(p, ip), now, Itself, WALLET_CREATE_WINDOW_MS, now);
      WithinAppend(Creations(f, ip), now, Itself, WALLET_CREATE_WINDOW_MS, now);
    }
    forall i ensures SameClaims(p', f', i, now) {
      assert SameClaims(p, f, i, now);
    }
    forall i ensures SameBlock(p', f', i, now) {
      assert SameBlock(p, f, i, now);
    }
    forall w ensures SameAge(p', f', w, now) {
      assert SameAge(p, f, w, now);
    }
  }

  lemma AddClaimAlike(p: Store, f: Store, ip: Ip, wallet: Wallet, fingerprint: string, now: Time)
    requires Alike(p, f, now)
    ensures Alike(AddClaim(p, ip, wallet, fingerprint, now), AddClaim(f, ip, wallet, fingerprint, now), now)
  {
    var p', f' := AddClaim(p, ip, wallet, fingerprint, now), AddClaim(f, ip, wallet, fingerprint, now);
    forall i ensures SameCreations(p', f', i, now) {
      assert SameCreations(p, f, i, now);
    }
    forall i ensures SameClaims(p', f', i, now) {
      assert SameClaims(p, f, i, now);
      WithinAppend(Claims(p, ip), Claim(wallet, fingerprint, now), ClaimedAt, FAUCET_IP_WINDOW_MS, now);
      WithinAppend(Claims(f, ip), Claim(wallet, fingerprint, now), ClaimedAt, FAUCET_IP_WINDOW_MS, now);
    }
    forall i ensures SameBlock(p', f', i, now) {
      assert SameBlock(p, f, i, now);
    }
    forall w ensures SameAge(p', f', w, now) {
      assert SameAge(p, f, w, now);
    }
  }

  lemma BlockAlike(p: Store, f: Store, ip: Ip, now: Time)
    requires Alike(p, f, now)
    ensures Alike(Block(p, ip, now), Block(f, ip, now), now)
  {
    var p', f' := Block(p, ip, now), Block(f, ip, now);
    forall i ensures SameCreations(p', f', i, now) && SameClaims(p', f', i, now) && SameBlock(p', f', i, now) {
      assert SameCreations(p, f, i, now) && SameClaims(p, f, i, now) && SameBlock(p, f, i, now);
    }
    forall w ensures SameAge(p', f', w, now) {
      assert SameAge(p, f, w, now);
    }
  }

  lemma AnswersAlike(p: Store, f: Store, op: Operation, now: Time)
    requires Alike(p, f, now)
    ensures AnswerTo(p, op, now) == AnswerTo(f, op, now) && Writes(p, op, now) == Writes(f, op, now)
  {
    match op
    case DecideCreation(ip) => assert SameBlock(p, f, ip, now) && SameCreations(p, f, ip, now);
    case DecideClaim(ip, wallet) => assert SameClaims(p, f, ip, now);
    case AskAge(wallet) => assert SameAge(p, f, wallet, now);
    case _ =>
  }

  lemma ChangesAlike(p: Store, f: Store, op: Operation, now: Time)
    requires Alike(p, f, now)
    ensures Alike(Changed(p, op, now), Changed(f, op, now), now)
  {
    AnswersAlike(p, f, op, now);
    match op
    case DecideCreation(ip) => if Trips(f, ip, now) { BlockAlike(p, f, ip, now); }
    case RecordCreation(wallet, ip) => AddCreationAlike(p, f, wallet, ip, now);
    case RecordClaim(ip, wallet, fingerprint) => AddClaimAlike(p, f, ip, wallet, fingerprint, now);
    case _ =>
  }

  lemma NextAlike(p: Store, f: Store, op: Operation, now: Time)
    requires Alike(p, f, now)
    ensures Alike(Next(p, op, now), Changed(f, op, now), now)
  {
    ChangesAlike(p, f, op, now);
    if Writes(p, op, now) {
      PruningKeepsAlike(Changed(p, op, now), Changed(f, op, now), now);
    }
  }

  datatype Request = Request(op: Operation, at: Time)

  predicate Monotone(requests: seq<Request>, from: Time)
    decreases |requests|
  {
    requests == [] || (from <= requests[0].at && Monotone(requests[1..], requests[0].at))
  }

  function Answers(s: Store, requests: seq<Request>): seq<Answer>
    decreases |requests|
  {
    if requests == [] then []
    else
      var op, at := requests[0].op, requests[0].at;
      [AnswerTo(s, op, at)] + Answers(Next(s, op, at), requests[1..])
  }

  /** The answers of a store that never forgets. */
  function LogAnswers(f: Store, requests: seq<Request>): seq<Answer>
    decreases |requests|
  {
    if requests == [] then []
    else
      var op, at := requests[0].op, requests[0].at;
      [AnswerTo(f, op, at)] + LogAnswers(Changed(f, op, at), requests[1..])
  }

  lemma {:induction false} AnswersStayAlike(p: Store, f: Store, now: Time, requests: seq<Request>)
    requires Alike(p, f, now) && Monotone(requests, now)
    ensures Answers(p, requests) == LogAnswers(f, requests)
    decreases |requests|
  {
    if requests != [] {
      var op, at := requests[0].op, requests[0].at;
      AlikeLater(p, f, now, at);
      AnswersAlike(p, f, op, at);
      NextAlike(p, f, op, at);
      AnswersStayAlike(Next(p, op, at), Changed(f, op, at), at, requests[1..]);
    }
  }

  /** Under a clock that does not run backwards, pruning on every write changes no answer: the
      store decides like a log of everything that ever happened. */
  lemma {:induction false} PruningIsUnobservable(requests: seq<Request>)
    requires Monotone(requests, 0)
    ensures Answers(EMPTY, requests) == LogAnswers(EMPTY, requests)
  {
    assert Alike(EMPTY, EMPTY, 0);
    AnswersStayAlike(EMPTY, EMPTY, 0, requests);
  }

  // ------------------------------------------------- limits in every window

  /** A visitor asks and, in the same step, is recorded if allowed. */
  datatype Visit =
    | Creating(wallet: Wallet, ip: Ip, at: Time)
    | Claiming(ip: Ip, wallet: Wallet, fingerprint: string, at: Time)

  function Served(s: Store, v: Visit): Store {
    match v
    case Creating(wallet, ip, at) =>
      var asked := Next(s, DecideCreation(ip), at);
      if CreationDecision(s, ip, at).Allowed? then Next(asked, RecordCreation(wallet, ip), at) else asked
    case Claiming(ip, wallet, fingerprint, at) =>
      if ClaimDecision(s, ip, wallet, at).Allowed? then Next(s, RecordClaim(ip, wallet, fingerprint), at) else s
  }

  /** Everything recorded on behalf of visitors, nothing forgotten. */
  function Logged(f: Store, v: Visit, decision: Decision): Store {
    match v
    case Creating(wallet, ip, at) =>
      var asked := Changed(f, DecideCreation(ip), at);
      if decision.Allowed? then AddCreation(asked, wallet, ip, at) else asked
    case Claiming(ip, wallet, fingerprint, at) =>
      if decision.Allowed? then AddClaim(f, ip, wallet, fingerprint, at) else f
  }

  function DecisionFor(s: Store, v: Visit): Decision {
    match v
    case Creating(wallet, ip, at) => CreationDecision(s, ip, at)
    case Claiming(ip, wallet, fingerprint, at) => ClaimDecision(s, ip, wallet, at)
  }

  /** The log kept beside the store while it serves visitors with its own decisions. */
  function LogOf(s: Store, f: Store, visits: seq<Visit>): Store
    decreases |visits|
  {
    if visits == [] then f
    else LogOf(Served(s, visits[0]), Logged(f, visits[0], DecisionFor(s, visits[0])), visits[1..])
  }

  predicate InOrder(visits: seq<Visit>, from: Time)
    decreases |visits|
  {
    visits == [] || (from <= visits[0].at && InOrder(visits[1..], visits[0].at))
  }

  /** Wallets that claim in the 24 hours up to a moment. */
  function WalletsDuring(claims: seq<Claim>, end: Time): set<Wallet> {
    set c | c in claims && end - FAUCET_IP_WINDOW_MS < c.at <= end :: c.wallet
  }

  /** How many wallets are created in the hour up to a moment. */
  function CreatedDuring(times: seq<Time>, end: Time): nat {
    if times == [] then 0
    else (if end - WALLET_CREATE_WINDOW_MS < times[0] <= end then 1 else 0) + CreatedDuring(times[1..], end)
  }

  predicate ClaimsLimited(claims: seq<Claim>, end: Time) {
    |WalletsDuring(claims, end)| <= FAUCET_IP_WALLET_LIMIT
  }

  predicate CreationsLimited(times: seq<Time>, end: Time) {
    CreatedDuring(times, end) <= WALLET_CREATE_LIMIT
  }

  /** No window of these entries, past or to come, is over a limit. */
  ghost predicate WithinLimits(claims: seq<Claim>, times: seq<Time>, now: Time) {
    && (forall end :: ClaimsLimited(claims, end))
    && (forall end :: CreationsLimited(times, end))
    && (forall c :: c in claims ==> c.at <= now)
    && (forall t :: t in times ==> t <= now)
  }

  ghost predicate Limited(f: Store, now: Time) {
    forall ip :: WithinLimits(Claims(f, ip), Creations(f, ip), now)
  }

  lemma SubsetSize<T>(a: set<T>, b: set<T>)
    requires a <= b
    ensures |a| <= |b|
  {
    assert |b - a| + |a| == |b| by {
      assert (b - a) + a == b;
    }
  }

  lemma {:induction false} WithinMembers<T>(xs: seq<T>, at: T -> Time, window: int, now: Time)
    ensures forall x :: x in Within(xs, at, window, now) <==> x in xs && now - at(x) < window
  {
    if xs != [] {
      WithinMembers(xs[1..], at, window, now);
    }
  }

  /** At the time of the last claim, the window is what the decision looks at. */
  lemma {:induction false} RecentIsDuring(claims: seq<Claim>, now: Time)
    requires forall x :: x in claims ==> x.at <= now
    ensures WalletsOf(Within(claims, ClaimedAt, FAUCET_IP_WINDOW_MS, now)) == WalletsDuring(claims, now)
  {
    WithinMembers(claims, ClaimedAt, FAUCET_IP_WINDOW_MS, now);
  }

  /** A claim is refused exactly when two other wallets have claimed from the address in the
      last 24 hours. */
  lemma ClaimRefusedExactly(s: Store, ip: Ip, wallet: Wallet, now: Time)
    requires forall x :: x in Claims(s, ip) ==> x.at <= now
    ensures ClaimDecision(s, ip, wallet, now).Refused? <==>
              wallet !in WalletsDuring(Claims(s, ip), now) && |WalletsDuring(Claims(s, ip), now)| >= 2
  {
    RecentIsDuring(Claims(s, ip), now);
  }

  lemma ClaimKeepsLimit(claims: seq<Claim>, c: Claim, end: Time)
    requires forall x :: x in claims ==> x.at <= c.at
    requires ClaimsLimited(claims, end) && ClaimsLimited(claims, c.at)
    requires c.wallet in WalletsDuring(claims, c.at) || |WalletsDuring(claims, c.at)| < FAUCET_IP_WALLET_LIMIT
    ensures ClaimsLimited(claims + [c], end)
  {
    var wallets := WalletsDuring(claims, c.at);
    if end < c.at {
      SubsetSize(WalletsDuring(claims + [c], end), WalletsDuring(claims, end));
    } else {
      SubsetSize(WalletsDuring(claims + [c], end), wallets + {c.wallet});
      assert c.wallet in wallets ==> wallets + {c.wallet} == wallets;
    }
  }

  lemma {:induction false} CreatedAppend(times: seq<Time>, t: Time, end: Time)
    ensures CreatedDuring(times + [t], end) ==
              CreatedDuring(times, end) + (if end - WALLET_CREATE_WINDOW_MS < t <= end then 1 else 0)
  {
    if times == [] {
      assert times + [t] == [t] && [t][1..] == [];
    } else {
      assert (times + [t])[1..] == times[1..] + [t];
      CreatedAppend(times[1..], t, end);
    }
  }

  lemma {:induction false} CreatedWithin(times: seq<Time>, now: Time, end: Time)
    requires now <= end && forall t :: t in times ==> t <= now
    ensures CreatedDuring(times, end) <= |Within(times, Itself, WALLET_CREATE_WINDOW_MS, now)|
  {
    if times != [] {
      assert times[0] in times && forall t :: t in times[1..] ==> t in times;
      CreatedWithin(times[1..], now, end);
    }
  }

  lemma {:induction false} CreationKeepsLimit(times: seq<Time>, now: Time, end: Time)
    requires forall t :: t in times ==> t <= now
    requires CreationsLimited(times, end) && |Within(times, Itself, WALLET_CREATE_WINDOW_MS, now)| < WALLET_CREATE_LIMIT
    ensures CreationsLimited(times + [now], end)
  {
    CreatedAppend(times, now, end);
    if now <= end {
      CreatedWithin(times, now, end);
    }
  }

  lemma {:induction false} CreationLimited(claims: seq<Claim>, times: seq<Time>, before: Time, at: Time)
    requires WithinLimits(claims, times, before) && before <= at
    requires |Within(times, Itself, WALLET_CREATE_WINDOW_MS, at)| < WALLET_CREATE_LIMIT
    ensures WithinLimits(claims, times + [at], at)
  {
    forall end ensures CreationsLimited(times + [at], end) {
      assert CreationsLimited(times, end);
      CreationKeepsLimit(times, at, end);
    }
  }

  lemma {:induction false} ClaimLimited(claims: seq<Claim>, times: seq<Time>, c: Claim, before: Time)
    requires WithinLimits(claims, times, before) && before <= c.at
    requires var wallets := WalletsOf(Within(claims, ClaimedAt, FAUCET_IP_WINDOW_MS, c.at));
             c.wallet in wallets || |wallets| < FAUCET_IP_WALLET_LIMIT
    ensures WithinLimits(claims + [c], times, c.at)
  {
    RecentIsDuring(claims, c.at);
    forall end ensures ClaimsLimited(claims + [c], end) {
      assert ClaimsLimited(claims, end) && ClaimsLimited(claims, c.at);
      ClaimKeepsLimit(claims, c, end);
    }
  }

  lemma LoggedKeepsLimited(f: Store, v: Visit, before: Time)
    requires Limited(f, before) && before <= v.at
    ensures Limited(Logged(f, v, DecisionFor(f, v)), v.at)
  {
    var f' := Logged(f, v, DecisionFor(f, v));
    forall ip ensures WithinLimits(Claims(f', ip), Creations(f', ip), v.at) {
      var claims, times := Claims(f, ip), Creations(f, ip);
      assert WithinLimits(claims, times, before);
      if v.ip == ip && DecisionFor(f, v).Allowed? {
        match v
        case Creating(_, _, at) => CreationLimited(claims, times, before, at);
        case Claiming(_, wallet, fingerprint, at) =>
          ClaimLimited(claims, times, Claim(wallet, fingerprint, at), before);
      } else {
        assert Claims(f', ip) == claims && Creations(f', ip) == times;
      }
    }
  }

  lemma ServedAlike(s: Store, f: Store, v: Visit)
    requires Alike(s, f, v.at)
    ensures DecisionFor(s, v) == DecisionFor(f, v)
    ensures Alike(Served(s, v), Logged(f, v, DecisionFor(s, v)), v.at)
  {
    match v
    case Creating(wallet, ip, at) =>
      AnswersAlike(s, f, DecideCreation(ip), at);
      NextAlike(s, f, DecideCreation(ip), at);
      if CreationDecision(s, ip, at).Allowed? {
        NextAlike(Next(s, DecideCreation(ip), at), Changed(f, DecideCreation(ip), at), RecordCreation(wallet, ip), at);
      }
    case Claiming(ip, wallet, fingerprint, at) =>
      AnswersAlike(s, f, DecideClaim(ip, wallet), at);
      NextAlike(s, f, RecordClaim(ip, wallet, fingerprint), at);
  }

  function EndOf(visits: seq<Visit>, from: Time): Time
    decreases |visits|
  {
    if visits == [] then from else EndOf(visits[1..], visits[0].at)
  }

  lemma {:induction false} LimitsKept(s: Store, f: Store, visits: seq<Visit>, now: Time)
    requires Alike(s, f, now) && Limited(f, now) && InOrder(visits, now)
    ensures Limited(LogOf(s, f, visits), EndOf(visits, now))
    decreases |visits|
  {
    if visits != [] {
      var v := visits[0];
      AlikeLater(s, f, now, v.at);
      ServedAlike(s, f, v);
      LoggedKeepsLimited(f, v, now);
      LimitsKept(Served(s, v), Logged(f, v, DecisionFor(s, v)), visits[1..], v.at);
    }
  }

  /** Over every sequence of visits, each recorded only when allowed: in no 24 hours do more
      than two wallets claim from one address, and in no hour are more than three created. */
  lemma {:induction false} LimitsHoldInEveryWindow(visits: seq<Visit>, ip: Ip, end: Time)
    requires InOrder(visits, 0)
    ensures |WalletsDuring(Claims(LogOf(EMPTY, EMPTY, visits), ip), end)| <= FAUCET_IP_WALLET_LIMIT
    ensures CreatedDuring(Creations(LogOf(EMPTY, EMPTY, visits), ip), end) <= WALLET_CREATE_LIMIT
  {
    assert Alike(EMPTY, EMPTY, 0) && Limited(EMPTY, 0);
    LimitsKept(EMPTY, EMPTY, visits, 0);
    var f := LogOf(EMPTY, EMPTY, visits);
    assert WithinLimits(Claims(f, ip), Creations(f, ip), EndOf(visits, 0));
    assert ClaimsLimited(Claims(f, ip), end) && CreationsLimited(Creations(f, ip), end);
  }

  lemma {:induction false} OneAnswerEach(s: Store, requests: seq<Request>)
    ensures |Answers(s, requests)| == |requests|
    decreases |requests|
  {
    if requests != [] {
      OneAnswerEach(Next(s, requests[0].op, requests[0].at), requests[1..]);
    }
  }

  lemma {:induction false} MonotoneAt(requests: seq<Request>, from: Time, i: nat)
    requires Monotone(requests, from) && i < |requests|
    ensures from <= requests[i].at
    decreases |requests|
  {
    if i > 0 {
      MonotoneAt(requests[1..], requests[0].at, i - 1);
    }
  }

  /** Once tripped, a block refuses every creation from its address until it ends. */
  lemma {:induction false} BlockHolds(s: Store, requests: seq<Request>, from: Time, ip: Ip, i: nat)
    requires Monotone(requests, from) && i < |requests|
    requires requests[i].op == DecideCreation(ip) && requests[i].at < BlockedUntil(s, ip)
    ensures i < |Answers(s, requests)| && Answers(s, requests)[i].Decided? && Answers(s, requests)[i].decision.Refused?
    decreases |requests|
  {
    OneAnswerEach(s, requests);
    if i > 0 {
      var op, at := requests[0].op, requests[0].at;
      MonotoneAt(requests[1..], at, i - 1);
      assert BlockedUntil(Next(s, op, at), ip) == BlockedUntil(s, ip);
      BlockHolds(Next(s, op, at), requests[1..], at, ip, i - 1);
    }
  }

  // ------------------------------------------------------ what is decided

  /** How many creations the address has had in the hour up to now. */
  lemma {:induction false} RecentCount(times: seq<Time>, now: Time)
    requires forall t :: t in times ==> t <= now
    ensures |Within(times, Itself, WALLET_CREATE_WINDOW_MS, now)| == CreatedDuring(times, now)
  {
    if times != [] {
      assert times[0] in times && forall t :: t in times[1..] ==> t in times;
      RecentCount(times[1..], now);
    }
  }

  /** A creation is refused exactly when the address is blocked or has had three within the hour; a
      refusal for speed blocks the address for the next 24 hours, and nothing else touches a block. */
  lemma {:induction false} CreationRefusedExactly(s: Store, ip: Ip, now: Time)
    requires forall t :: t in Creations(s, ip) ==> t <= now
    ensures var decision, after := CreationDecision(s, ip, now), Next(s, DecideCreation(ip), now);
            var fast := BlockedUntil(s, ip) <= now && CreatedDuring(Creations(s, ip), now) >= 3;
            && (decision.Refused? <==> BlockedUntil(s, ip) > now || CreatedDuring(Creations(s, ip), now) >= 3)
            && (decision.Refused? ==> (decision.reason == "velocity" <==> fast))
            && (fast ==> BlockedUntil(after, ip) == now + 86_400_000)
            && (!fast ==> after == s)
            && forall other :: other != ip && BlockedUntil(s, other) > now ==>
                 BlockedUntil(after, other) == BlockedUntil(s, other)
  {
    RecentCount(Creations(s, ip), now);
  }

  /** How long to wait: the least whole number of seconds that is long enough. */
  lemma RetryIsEnough(s: Store, ip: Ip, now: Time)
    ensures BlockedUntil(s, ip) > now ==>
              var wait := CreationDecision(s, ip, now).retryAfterSeconds;
              1000 * wait >= BlockedUntil(s, ip) - now > 1000 * (wait - 1)
    ensures BlockedUntil(s, ip) <= now && CreationDecision(s, ip, now).Refused? ==>
              CreationDecision(s, ip, now).retryAfterSeconds == 86_400
  {}

  /** A wallet recorded at one moment is too new for exactly an hour; other wallets stay as they were
      for as long as they could still be too new. */
  lemma TooNewForAnHour(s: Store, wallet: Wallet, ip: Ip, created: Time, now: Time)
    requires created <= now
    ensures var after := Next(s, RecordCreation(wallet, ip), created);
            && (WalletTooNew(after, wallet, now) <==> now - created < 3_600_000)
            && forall w :: w != wallet ==> (WalletTooNew(after, w, now) <==> WalletTooNew(s, w, now))
  {}

  /** A recorded claim counts for its wallet and address for exactly 24 hours. */
  lemma ClaimIsRecorded(s: Store, ip: Ip, wallet: Wallet, fingerprint: string, at: Time)
    ensures var after := Next(s, RecordClaim(ip, wallet, fingerprint), at);
            && Claims(after, ip) == RecentClaims(s, ip, at) + [Claim(wallet, fingerprint, at)]
            && ClaimCount(after, wallet) == ClaimCount(s, wallet) + 1
            && (forall w :: w != wallet ==> ClaimCount(after, w) == ClaimCount(s, w))
            && forall x :: x in RecentClaims(s, ip, at) <==> x in Claims(s, ip) && at - x.at < 86_400_000
  {
    WithinAppend(Claims(s, ip), Claim(wallet, fingerprint, at), ClaimedAt, FAUCET_IP_WINDOW_MS, at);
    WithinMembers(Claims(s, ip), ClaimedAt, FAUCET_IP_WINDOW_MS, at);
  }

  /** A recorded creation counts for its address for exactly an hour. */
  lemma CreationIsRecorded(s: Store, wallet: Wallet, ip: Ip, at: Time)
    ensures var after := Next(s, RecordCreation(wallet, ip), at);
            && Creations(after, ip) == RecentCreations(s, ip, at) + [at]
            && wallet in after.walletCreations && after.walletCreations[wallet] == Creation(at, ip)
            && forall t :: t in RecentCreations(s, ip, at) <==> t in Creations(s, ip) && at - t < 3_600_000
  {
    WithinAppend(Creations(s, ip), at, Itself, WALLET_CREATE_WINDOW_MS, at);
    WithinMembers(Creations(s, ip), Itself, WALLET_CREATE_WINDOW_MS, at);
  }

  /** Pruning forgets exactly what has left its window, whichever entry of the store one looks at. */
  lemma ForgetsExactly(s: Store, now: Time, ip: Ip, t: Time, c: Claim, wallet: Wallet)
    ensures var after := Pruned(s, now);
            && (t in Creations(after, ip) <==> t in Creations(s, ip) && now - t < 3_600_000)
            && (c in Claims(after, ip) <==> c in Claims(s, ip) && now - c.at < 86_400_000)
            && (ip in after.ipCreations ==> Creations(after, ip) != [])
            && (ip in after.ipClaims ==> Claims(after, ip) != [])
            && (ip in after.ipCreateBlockedUntil <==> BlockedUntil(s, ip) > now)
            && (BlockedUntil(s, ip) > now ==> BlockedUntil(after, ip) == BlockedUntil(s, ip))
            && (wallet in after.walletCreations <==>
                wallet in s.walletCreations && now - s.walletCreations[wallet].createdAt <= 172_800_000)
            && (wallet in after.walletCreations ==> after.walletCreations[wallet] == s.walletCreations[wallet])
            && after.walletClaimCounts == s.walletClaimCounts
  {
    WithinMembers(Creations(s, ip), Itself, WALLET_CREATE_WINDOW_MS, now);
    WithinMembers(Claims(s, ip), ClaimedAt, FAUCET_IP_WINDOW_MS, now);
    assert Claims(Pruned(s, now), ip) == RecentClaims(s, ip, now);
    assert Creations(Pruned(s, now), ip) == RecentCreations(s, ip, now);
    assert ClaimedAt(c) == c.at && Itself(t) == t;
  }

  /** Over every run: after a refusal for speed, every creation from the address is refused for the
      24 hours that follow. */
  lemma {:induction false} SpeedingIsBlocked(s: Store, requests: seq<Request>, from: Time, ip: Ip, now: Time, i: nat)
    requires forall t :: t in Creations(s, ip) ==> t <= now
    requires BlockedUntil(s, ip) <= now && CreatedDuring(Creations(s, ip), now) >= 3
    requires now <= from && Monotone(requests, from) && i < |requests|
    requires requests[i].op == DecideCreation(ip) && requests[i].at < now + 86_400_000
    ensures CreationDecision(s, ip, now).Refused?
    ensures var after := Next(s, DecideCreation(ip), now);
            i < |Answers(after, requests)| && Answers(after, requests)[i].Decided?
            && Answers(after, requests)[i].decision.Refused?
  {
    CreationRefusedExactly(s, ip, now);
    BlockHolds(Next(s, DecideCreation(ip), now), requests, from, ip, i);
  }

  // ------------------------------------------------------------- the object

  class FaucetAbuseStore {
    var walletCreations: map<Wallet, Creation>
    var ipCreations: map<Ip, seq<Time>>
    var ipCreateBlockedUntil: map<Ip, Time>
    var walletClaimCounts: map<Wallet, nat>
    var ipClaims: map<Ip, seq<Claim>>

    function State(): Store
      reads this
    {
      Store(walletCreations, ipCreations, ipCreateBlockedUntil, walletClaimCounts, ipClaims)
    }

    constructor ()
      ensures State() == EMPTY
    {
      walletCreations, ipCreations, ipCreateBlockedUntil, walletClaimCounts, ipClaims :=
          map[], map[], map[], map[], map[];
    }

    /** prune, one entry at a time. */
    method Prune(now: Time)
      modifies this
      ensures State() == Pruned(old(State()), now)
    {
      ForgetWallets(now);
      ipCreations := KeepRecent(ipCreations, Itself, WALLET_CREATE_WINDOW_MS, now);
      ForgetBlocks(now);
      ipClaims := KeepRecent(ipClaims, ClaimedAt, FAUCET_IP_WINDOW_MS, now);
    }

    method ForgetWallets(now: Time)
      modifies this`walletCreations
      ensures walletCreations == Pruned(old(State()), now).walletCreations
    {
      var todo := walletCreations.Keys;
      while todo != {}
        invariant todo <= walletCreations.Keys <= old(walletCreations).Keys
        invariant forall w :: w in walletCreations ==> walletCreations[w] == old(walletCreations)[w]
        invariant forall w :: w in old(walletCreations) && w !in todo ==>
                    (w in walletCreations <==> now - old(walletCreations)[w].createdAt <= CREATION_RETENTION_MS)
        decreases |todo|
      {
        var wallet :| wallet in todo;
        if now - walletCreations[wallet].createdAt > CREATION_RETENTION_MS {
          walletCreations := walletCreations - {wallet};
        }
        todo := todo - {wallet};
      }
    }

    method ForgetBlocks(now: Time)
      modifies this`ipCreateBlockedUntil
      ensures ipCreateBlockedUntil == Pruned(old(State()), now).ipCreateBlockedUntil
    {
      var todo := ipCreateBlockedUntil.Keys;
      while todo != {}
        invariant todo <= ipCreateBlockedUntil.Keys <= old(ipCreateBlockedUntil).Keys
        invariant forall ip :: ip in ipCreateBlockedUntil ==> ipCreateBlockedUntil[ip] == old(ipCreateBlockedUntil)[ip]
        invariant forall ip :: ip in old(ipCreateBlockedUntil) && ip !in todo ==>
                    (ip in ipCreateBlockedUntil <==> old(ipCreateBlockedUntil)[ip] > now)
        decreases |todo|
      {
        var ip :| ip in todo;
        if ipCreateBlockedUntil[ip] <= now {
          ipCreateBlockedUntil := ipCreateBlockedUntil - {ip};
        }
        todo := todo - {ip};
      }
    }

    /** The loop prune makes over ipCreations and over ipClaims. */
    static method KeepRecent<T>(lists: map<Ip, seq<T>>, at: T -> Time, window: int, now: Time)
      returns (r: map<Ip, seq<T>>)
      ensures r == Kept(lists, at, window, now)
    {
      r := lists;
      var todo := lists.Keys;
      while todo != {}
        invariant todo <= r.Keys <= lists.Keys
        invariant forall ip :: ip in todo ==> r[ip] == lists[ip]
        invariant forall ip :: ip in lists && ip !in todo ==> (ip in r <==> Within(lists[ip], at, window, now) != [])
        invariant forall ip :: ip in r && ip !in todo ==> r[ip] == Within(lists[ip], at, window, now)
        decreases |todo|
      {
        var ip :| ip in todo;
        var kept := Within(r[ip], at, window, now);
        if kept != [] {
          r := r[ip := kept];
        } else {
          r := r - {ip};
        }
        todo := todo - {ip};
      }
    }

    method WalletCreateDecision(ip: Ip, now: Time) returns (decision: Decision)
      modifies this
      ensures State() == Next(old(State()), DecideCreation(ip), now)
      ensures Decided(decision) == AnswerTo(old(State()), DecideCreation(ip), now)
    {
      var blockedUntil := if ip in ipCreateBlockedUntil then ipCreateBlockedUntil[ip] else 0;
      if blockedUntil > now {
        return Refused(Seconds(blockedUntil - now), "blocked");
      }
      var recent := Within(if ip in ipCreations then ipCreations[ip] else [], Itself, WALLET_CREATE_WINDOW_MS, now);
      if |recent| >= WALLET_CREATE_LIMIT {
        ipCreateBlockedUntil := ipCreateBlockedUntil[ip := now + WALLET_CREATE_BLOCK_MS];
        Prune(now);
        return Refused(Seconds(WALLET_CREATE_BLOCK_MS), "velocity");
      }
      return Allowed;
    }

    method RecordWalletCreation(wallet: Wallet, ip: Ip, now: Time)
      modifies this
      ensures State() == Next(old(State()), RecordCreation(wallet, ip), now)
    {
      walletCreations := walletCreations[wallet := Creation(now, ip)];
      ipCreations := ipCreations[ip := (if ip in ipCreations then ipCreations[ip] else []) + [now]];
      Prune(now);
    }

    method IsWalletTooNew(wallet: Wallet, now: Time) returns (tooNew: bool)
      ensures TooNew(tooNew) == AnswerTo(State(), AskAge(wallet), now)
    {
      if wallet !in walletCreations {
        return false;
      }
      return now - walletCreations[wallet].createdAt < MIN_WALLET_AGE_MS;
    }

    method IpFaucetDecision(ip: Ip, wallet: Wallet, now: Time) returns (decision: Decision)
      ensures Decided(decision) == AnswerTo(State(), DecideClaim(ip, wallet), now)
    {
      var list := Within(if ip in ipClaims then ipClaims[ip] else [], ClaimedAt, FAUCET_IP_WINDOW_MS, now);
      var wallets := WalletsOf(list);
      if wallet in wallets {
        return Allowed;
      }
      if |wallets| >= FAUCET_IP_WALLET_LIMIT {
        return Refused(Seconds(FAUCET_IP_WINDOW_MS), "ip_wallet_limit");
      }
      return Allowed;
    }

    method RecordFaucetClaim(ip: Ip, wallet: Wallet, fingerprint: string, now: Time)
      modifies this
      ensures State() == Next(old(State()), RecordClaim(ip, wallet, fingerprint), now)
    {
      ipClaims := ipClaims[ip := (if ip in ipClaims then ipClaims[ip] else []) + [Claim(wallet, fingerprint, now)]];
      walletClaimCounts :=
          walletClaimCounts[wallet := (if wallet in walletClaimCounts then walletClaimCounts[wallet] else 0) + 1];
      assert State() == AddClaim(old(State()), ip, wallet, fingerprint, now);
      Prune(now);
    }
  }
}
