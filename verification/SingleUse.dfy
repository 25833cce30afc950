/** The in-memory single-use stores: `ttlStore` of `internal/api/mcpoauth.go`, which purges on put, and
    `cliCodeStore` of `internal/api/cliauth.go`, which binds a code to a state. Times are seconds. */
module SingleUse {
  import opened Text

  const TTL: nat := 300

  datatype Entry<T> = Entry(v: T, expires: int)

  type Entries<T> = map<string, Entry<T>>

  /** `now.After(e.expires)` */
  predicate Expired<T>(e: Entry<T>, now: int) {
    now > e.expires
  }

  // ----- The TTL store

  function Live<T>(m: Entries<T>, now: int): Entries<T> {
    map id | id in m && !Expired(m[id], now) :: m[id]
  }

  function Put<T>(m: Entries<T>, id: string, v: T, now: int): Entries<T> {
    Live(m, now)[id := Entry(v, now + TTL)]
  }

  /** The value under `id`, unless there is none or it has expired. */
  function Found<T>(m: Entries<T>, id: string, now: int): Option<T> {
    if id in m && !Expired(m[id], now) then Some(m[id].v) else None
  }

  function Spent<T>(m: Entries<T>, id: string): Entries<T> {
    m - {id}
  }

  class TtlStore<T> {
    var m: Entries<T>

    constructor ()
      ensures m == map[]
    {
      m := map[];
    }

    /** `id` is the fresh random id. */
    method Store(id: string, v: T, now: int)
      modifies this
      ensures m == Put(old(m), id, v, now)
    {
      var todo := m.Keys;
      while todo != {}
        invariant todo <= m.Keys <= old(m).Keys
        invariant forall k :: k in m ==> m[k] == old(m)[k]
        invariant forall k :: k in old(m) && k !in todo ==> (k in m <==> !Expired(old(m)[k], now))
        decreases todo
      {
        var k :| k in todo;
        todo := todo - {k};
        if now > m[k].expires {
          m := m - {k};
        }
      }
      m := m[id := Entry(v, now + TTL)];
    }

    method Take(id: string, now: int) returns (r: Option<T>)
      modifies this
      ensures r == Found(old(m), id, now) && m == Spent(old(m), id)
    {
      r := None;
      if id in m && !(now > m[id].expires) { r := Some(m[id].v); }
      m := m - {id};
    }
  }

  // ----- Runs of the TTL store

  datatype Op<T> = PutOp(id: string, v: T, at: int) | TakeOp(id: string, at: int)

  predicate Monotone<T>(ops: seq<Op<T>>, from: int)
    decreases |ops|
  {
    ops == [] || (from <= ops[0].at && Monotone(ops[1..], ops[0].at))
  }

  function After<T>(m: Entries<T>, op: Op<T>): Entries<T> {
    match op
    case PutOp(id, v, at) => Put(m, id, v, at)
    case TakeOp(id, _) => Spent(m, id)
  }

  /** The same store without the purge. */
  function AfterKept<T>(m: Entries<T>, op: Op<T>): Entries<T> {
    match op
    case PutOp(id, v, at) => m[id := Entry(v, at + TTL)]
    case TakeOp(id, _) => Spent(m, id)
  }

  function Answer<T>(m: Entries<T>, op: Op<T>): Option<T> {
    match op
    case PutOp(_, _, _) => None
    case TakeOp(id, at) => Found(m, id, at)
  }

  function Answers<T>(m: Entries<T>, ops: seq<Op<T>>): seq<Option<T>>
    decreases |ops|
  {
    if ops == [] then [] else [Answer(m, ops[0])] + Answers(After(m, ops[0]), ops[1..])
  }

  function KeptAnswers<T>(m: Entries<T>, ops: seq<Op<T>>): seq<Option<T>>
    decreases |ops|
  {
    if ops == [] then [] else [Answer(m, ops[0])] + KeptAnswers(AfterKept(m, ops[0]), ops[1..])
  }

  /** Under a monotone clock the purge is invisible: every take gets the answer a store that never purges
      would give. */
  lemma {:induction false} PurgeInvisible<T>(a: Entries<T>, b: Entries<T>, ops: seq<Op<T>>, now: int)
    requires Monotone(ops, now) && Live(a, now) == Live(b, now)
    ensures Answers(a, ops) == KeptAnswers(b, ops)
    decreases |ops|
  {
    if ops != [] {
      LiveLater(a, b, now, ops[0].at);
      SameStep(a, b, ops[0]);
      PurgeInvisible(After(a, ops[0]), AfterKept(b, ops[0]), ops[1..], ops[0].at);
    }
  }

  lemma LiveLater<T>(a: Entries<T>, b: Entries<T>, now: int, later: int)
    requires Live(a, now) == Live(b, now) && now <= later
    ensures Live(a, later) == Live(b, later)
  {
    forall id
      ensures id in Live(a, later) <==> id in Live(b, later)
    {
      LiveAt(a, id, now);
      LiveAt(b, id, now);
    }
    forall id | id in Live(a, later)
      ensures Live(a, later)[id] == Live(b, later)[id]
    {
      LiveAt(a, id, now);
      LiveAt(b, id, now);
    }
  }

  lemma LiveAt<T>(m: Entries<T>, id: string, now: int)
    ensures id in Live(m, now) <==> id in m && !Expired(m[id], now)
    ensures id in Live(m, now) ==> Live(m, now)[id] == m[id]
  {
  }

  lemma SameStep<T>(a: Entries<T>, b: Entries<T>, op: Op<T>)
    requires Live(a, op.at) == Live(b, op.at)
    ensures Answer(a, op) == Answer(b, op)
    ensures Live(After(a, op), op.at) == Live(AfterKept(b, op), op.at)
  {
    forall id
      ensures id in a && !Expired(a[id], op.at) <==> id in b && !Expired(b[id], op.at)
      ensures id in a && !Expired(a[id], op.at) ==> a[id] == b[id]
    {
      LiveAt(a, id, op.at);
      LiveAt(b, id, op.at);
    }
  }

  /** The last operation on an id. */
  function LastOn<T>(ops: seq<Op<T>>, id: string): Option<Op<T>> {
    if ops == [] then None
    else if ops[|ops| - 1].id == id then Some(ops[|ops| - 1])
    else LastOn(ops[..|ops| - 1], id)
  }

  function KeptStore<T>(ops: seq<Op<T>>): Entries<T> {
    if ops == [] then map[] else AfterKept(KeptStore(ops[..|ops| - 1]), ops[|ops| - 1])
  }

  lemma {:induction false} KeptHolds<T>(ops: seq<Op<T>>, id: string)
    ensures id in KeptStore(ops) <==> LastOn(ops, id).Some? && LastOn(ops, id).value.PutOp?
    ensures id in KeptStore(ops) ==>
      KeptStore(ops)[id] == Entry(LastOn(ops, id).value.v, LastOn(ops, id).value.at + TTL)
  {
    if ops != [] { KeptHolds(ops[..|ops| - 1], id); }
  }

  lemma {:induction false} KeptAnswerAt<T>(done: seq<Op<T>>, ops: seq<Op<T>>, k: nat)
    requires k < |ops|
    ensures |KeptAnswers(KeptStore(done), ops)| == |ops|
    ensures KeptAnswers(KeptStore(done), ops)[k] == Answer(KeptStore(done + ops[..k]), ops[k])
    decreases |ops|
  {
    var next := done + [ops[0]];
    assert next[..|done|] == done && next[|done|] == ops[0];
    assert KeptStore(next) == AfterKept(KeptStore(done), ops[0]);
    if k == 0 {
      assert done + ops[..0] == done;
      if |ops| > 1 { KeptAnswerAt(next, ops[1..], 0); } else { assert ops[1..] == []; }
    } else {
      KeptAnswerAt(next, ops[1..], k - 1);
      assert next + ops[1..][..k - 1] == done + ops[..k];
    }
  }

  /** A take succeeds exactly when the last operation on its id before it put the value there no more than
      the lifetime ago; so between two successes on one id there is a put, and an expired value is never
      returned. */
  lemma TakesExactly<T>(ops: seq<Op<T>>, from: int, k: nat)
    requires Monotone(ops, from) && k < |ops| && ops[k].TakeOp?
    ensures |Answers(map[], ops)| == |ops|
    ensures var last := LastOn(ops[..k], ops[k].id);
      Answers(map[], ops)[k] ==
        if last.Some? && last.value.PutOp? && ops[k].at <= last.value.at + TTL then Some(last.value.v) else None
  {
    var none: Entries<T> := map[];
    PurgeInvisible(none, none, ops, from);
    KeptAnswerAt([], ops, k);
    assert [] + ops[..k] == ops[..k];
    KeptHolds(ops[..k], ops[k].id);
  }

  /** Fresh ids are put once. */
  predicate FreshIds<T>(ops: seq<Op<T>>) {
    forall i, j :: 0 <= i < j < |ops| && ops[i].PutOp? && ops[j].PutOp? ==> ops[i].id != ops[j].id
  }

  /** With fresh ids each stored value is returned at most once. */
  lemma TakenOnce<T>(ops: seq<Op<T>>, from: int, i: nat, j: nat)
    requires Monotone(ops, from) && FreshIds(ops) && i < j < |ops|
    requires ops[i].TakeOp? && ops[j].TakeOp? && ops[i].id == ops[j].id
    requires |Answers(map[], ops)| == |ops| && Answers(map[], ops)[i].Some?
    ensures Answers(map[], ops)[j].None?
  {
    TakesExactly(ops, from, i);
    TakesExactly(ops, from, j);
    var id := ops[i].id;
    assert ops[..j][i] == ops[i];
    LastExists(ops[..j], i);
    var p := LastAt(ops[..i], id);
    var q := LastAt(ops[..j], id);
    assert ops[..i][p] == ops[p] && ops[..j][q] == ops[q];
    assert q >= i && p < i && ops[p].PutOp? && ops[p].id == ops[q].id;
    assert !ops[q].PutOp?;
  }

  lemma {:induction false} LastExists<T>(ops: seq<Op<T>>, i: nat)
    requires i < |ops|
    ensures LastOn(ops, ops[i].id).Some?
  {
    if i < |ops| - 1 { LastExists(ops[..|ops| - 1], i); }
  }

  lemma {:induction false} LastAt<T>(ops: seq<Op<T>>, id: string) returns (i: nat)
    requires LastOn(ops, id).Some?
    ensures i < |ops| && ops[i] == LastOn(ops, id).value && ops[i].id == id
    ensures forall k :: i < k < |ops| ==> ops[k].id != id
  {
    i := |ops| - 1;
    if ops[i].id != id { i := LastAt(ops[..i], id); }
  }

  // ----- The CLI code store

  datatype CliCode = CliCode(actor: string, state: string, expires: int)

  type CliCodes = map<string, CliCode>

  function Minted(m: CliCodes, code: string, actor: string, state: string, now: int): CliCodes {
    m[code := CliCode(actor, state, now + TTL)]
  }

  predicate Usable(m: CliCodes, code: string, now: int) {
    code in m && now <= m[code].expires
  }

  function Redeemed(m: CliCodes, code: string, state: string, now: int): Option<string> {
    if Usable(m, code, now) && m[code].state == state then Some(m[code].actor) else None
  }

  /** A wrong state leaves the code in place. */
  function AfterRedeem(m: CliCodes, code: string, state: string, now: int): CliCodes {
    if Usable(m, code, now) && m[code].state != state then m else m - {code}
  }

  class CliCodeStore {
    var codes: CliCodes

    constructor ()
      ensures codes == map[]
    {
      codes := map[];
    }

    method Mint(code: string, actor: string, state: string, now: int)
      modifies this
      ensures codes == Minted(old(codes), code, actor, state, now)
    {
      codes := codes[code := CliCode(actor, state, now + TTL)];
    }

    method Redeem(code: string, state: string, now: int) returns (r: Option<string>)
      modifies this
      ensures r == Redeemed(old(codes), code, state, now) && codes == AfterRedeem(old(codes), code, state, now)
    {
      if code !in codes || now > codes[code].expires {
        codes := codes - {code};
        return None;
      }
      if codes[code].state != state {
        return None;
      }
      r := Some(codes[code].actor);
      codes := codes - {code};
    }
  }

  datatype CliOp = MintOp(code: string, actor: string, state: string, at: int)
                 | RedeemOp(code: string, state: string, at: int)

  predicate MonotoneCli(ops: seq<CliOp>, from: int) {
    ops == [] || (from <= ops[0].at && MonotoneCli(ops[1..], ops[0].at))
  }

  function AfterCli(m: CliCodes, op: CliOp): CliCodes {
    match op
    case MintOp(code, actor, state, at) => Minted(m, code, actor, state, at)
    case RedeemOp(code, state, at) => AfterRedeem(m, code, state, at)
  }

  function AnswerCli(m: CliCodes, op: CliOp): Option<string> {
    match op
    case MintOp(_, _, _, _) => None
    case RedeemOp(code, state, at) => Redeemed(m, code, state, at)
  }

  function CliAnswers(m: CliCodes, ops: seq<CliOp>): seq<Option<string>>
    decreases |ops|
  {
    if ops == [] then [] else [AnswerCli(m, ops[0])] + CliAnswers(AfterCli(m, ops[0]), ops[1..])
  }

  /** The two stores differ at most in expired codes. */
  ghost predicate SameUsable(a: CliCodes, b: CliCodes, now: int) {
    forall code :: (Usable(a, code, now) <==> Usable(b, code, now)) && (Usable(a, code, now) ==> a[code] == b[code])
  }

  lemma {:induction false} SameCliAnswers(a: CliCodes, b: CliCodes, ops: seq<CliOp>, now: int)
    requires MonotoneCli(ops, now) && SameUsable(a, b, now)
    ensures CliAnswers(a, ops) == CliAnswers(b, ops)
    decreases |ops|
  {
    if ops != [] {
      SameCliAnswers(AfterCli(a, ops[0]), AfterCli(b, ops[0]), ops[1..], ops[0].at);
    }
  }

  /** An attempt that does not present the code's own state changes no later answer, so it can neither
      spend the code nor keep it alive. */
  lemma WrongStateHarmless(m: CliCodes, code: string, state: string, at: int, later: seq<CliOp>)
    requires MonotoneCli(later, at) && Redeemed(m, code, state, at).None?
    ensures CliAnswers(AfterRedeem(m, code, state, at), later) == CliAnswers(m, later)
  {
    SameCliAnswers(AfterRedeem(m, code, state, at), m, later, at);
  }

  predicate NoMint(ops: seq<CliOp>, code: string) {
    forall i :: 0 <= i < |ops| && ops[i].MintOp? ==> ops[i].code != code
  }

  lemma {:induction false} NoneWithoutMint(m: CliCodes, ops: seq<CliOp>, code: string, j: nat)
    requires code !in m && NoMint(ops, code) && j < |ops| && ops[j].code == code
    ensures |CliAnswers(m, ops)| == |ops| && CliAnswers(m, ops)[j].None?
    decreases |ops|
  {
    CliAnswersLength(m, ops);
    if j > 0 {
      assert ops[1..][j - 1] == ops[j];
      NoneWithoutMint(AfterCli(m, ops[0]), ops[1..], code, j - 1);
    }
  }

  /** Once a code has been redeemed, no later attempt on it succeeds, codes never being minted twice. */
  lemma {:induction false} CliRedeemedOnce(m: CliCodes, ops: seq<CliOp>, i: nat, j: nat)
    requires i < j < |ops| && ops[i].code == ops[j].code && NoMint(ops[i..], ops[i].code)
    requires |CliAnswers(m, ops)| == |ops| && CliAnswers(m, ops)[i].Some?
    ensures CliAnswers(m, ops)[j].None?
    decreases |ops|
  {
    var rest := AfterCli(m, ops[0]);
    CliAnswersLength(rest, ops[1..]);
    assert ops[1..][j - 1] == ops[j];
    if i == 0 {
      forall k | 0 <= k < |ops[1..]| && ops[1..][k].MintOp?
        ensures ops[1..][k].code != ops[0].code
      {
        assert ops[0..][k + 1] == ops[1..][k];
      }
      NoneWithoutMint(rest, ops[1..], ops[0].code, j - 1);
    } else {
      assert ops[1..][i - 1..] == ops[i..] && ops[1..][i - 1] == ops[i];
      CliRedeemedOnce(rest, ops[1..], i - 1, j - 1);
    }
  }

  lemma {:induction false} CliAnswersLength(m: CliCodes, ops: seq<CliOp>)
    ensures |CliAnswers(m, ops)| == |ops|
    decreases |ops|
  {
    if ops != [] { CliAnswersLength(AfterCli(m, ops[0]), ops[1..]); }
  }

  /** The code stands as it was minted, or its time is over. */
  predicate StandsOrOver(m: CliCodes, code: string, c: CliCode, now: int) {
    if code in m then m[code] == c else now > c.expires
  }

  lemma {:induction false} CliStands(m: CliCodes, ops: seq<CliOp>, from: int, code: string, c: CliCode, j: nat)
    requires MonotoneCli(ops, from) && StandsOrOver(m, code, c, from) && j < |ops|
    requires ops[j].RedeemOp? && ops[j].code == code && NoMint(ops, code)
    requires forall k :: 0 <= k < j && ops[k].RedeemOp? && ops[k].code == code ==> ops[k].state != c.state
    ensures |CliAnswers(m, ops)| == |ops|
    ensures CliAnswers(m, ops)[j] == if ops[j].state == c.state && ops[j].at <= c.expires then Some(c.actor) else None
    decreases |ops|
  {
    CliAnswersLength(m, ops);
    if j > 0 {
      var rest := ops[1..];
      assert rest[j - 1] == ops[j];
      assert forall k :: 0 <= k < |rest| ==> rest[k] == ops[k + 1];
      CliStands(AfterCli(m, ops[0]), rest, ops[0].at, code, c, j - 1);
    }
  }

  /** An attempt succeeds exactly when it presents the state the code was minted with, no more than five
      minutes later, and for the actor it was minted for; wrong attempts in between change nothing. */
  lemma CliRedeemsExactly(m: CliCodes, ops: seq<CliOp>, from: int, j: nat)
    requires MonotoneCli(ops, from) && 0 < j < |ops| && ops[0].MintOp? && ops[j].RedeemOp? && ops[j].code == ops[0].code
    requires NoMint(ops[1..], ops[0].code)
    requires forall k :: 0 < k < j && ops[k].RedeemOp? && ops[k].code == ops[0].code ==> ops[k].state != ops[0].state
    ensures |CliAnswers(m, ops)| == |ops|
    ensures CliAnswers(m, ops)[j] ==
      if ops[j].state == ops[0].state && ops[j].at <= ops[0].at + 300 then Some(ops[0].actor) else None
  {
    var rest, mint := ops[1..], ops[0];
    CliAnswersLength(m, ops);
    assert rest[j - 1] == ops[j];
    assert forall k :: 0 <= k < |rest| ==> rest[k] == ops[k + 1];
    CliStands(AfterCli(m, mint), rest, mint.at, mint.code, CliCode(mint.actor, mint.state, mint.at + 300), j - 1);
  }
}
