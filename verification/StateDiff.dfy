/** The state-diff recorder of the cheatcode inspector: the stack of pending account accesses that
    the `call`, `create`, `step`, `call_end` and `create_end` hooks push, extend, flag and merge. */
module StateDiff {
  import opened Wrappers

  datatype AccessKind =
    | Call | DelegateCall | CallCode | StaticCall
    | Create
    | SelfDestruct
    | Resume
    | Balance | Extcodesize | Extcodehash | Extcodecopy

  predicate IsFrameKind(kind: AccessKind) {
    kind.Call? || kind.DelegateCall? || kind.CallCode? || kind.StaticCall? || kind.Create?
  }

  datatype StorageAccess = StorageAccess(
    account: Address, slot: Word, isWrite: bool, previousValue: Word, newValue: Word, reverted: bool)

  datatype AccountAccess = AccountAccess(
    accessor: Address, account: Address, kind: AccessKind, initialized: bool,
    oldBalance: Word, newBalance: Word, oldNonce: nat, newNonce: nat,
    reverted: bool, storageAccesses: seq<StorageAccess>, depth: nat)

  /** What `call_end` and `create_end` read back from the journal when the account loads. */
  datatype Post = Post(balance: Word, nonce: nat)

  type Records = seq<AccountAccess>
  type Stack = seq<Records>

  // ---------------------------------------------------------------------------------------------
  // The hooks on values
  // ---------------------------------------------------------------------------------------------

  function FlagAccess(a: StorageAccess): StorageAccess {
    a.(reverted := true)
  }

  function FlagAccesses(s: seq<StorageAccess>): seq<StorageAccess> {
    seq(|s|, i requires 0 <= i < |s| => FlagAccess(s[i]))
  }

  function FlagRecord(r: AccountAccess): AccountAccess {
    r.(reverted := true, storageAccesses := FlagAccesses(r.storageAccesses))
  }

  function FlagRecords(v: Records): Records {
    seq(|v|, i requires 0 <= i < |v| => FlagRecord(v[i]))
  }

  function AddAccess(r: AccountAccess, a: StorageAccess): AccountAccess {
    r.(storageAccesses := r.storageAccesses + [a])
  }

  /** The record that resumes the context opened by `entry` after a nested account access. */
  function ResumeRecord(entry: AccountAccess, a: StorageAccess): AccountAccess {
    AccountAccess(entry.accessor, entry.account, Resume, entry.initialized,
                  0, 0, 0, 0, entry.reverted, [a], entry.depth)
  }

  function AppendStorageAccess(last: Records, a: StorageAccess, depth: nat): Records {
    if |last| > 0 && last[0].depth < depth then
      if |last| == 1 then
        [AddAccess(last[0], a)]
      else if last[|last| - 1].kind.Resume? then
        last[..|last| - 1] + [AddAccess(last[|last| - 1], a)]
      else
        last + [ResumeRecord(last[0], a)]
    else
      last
  }

  /** A storage access is offered to the topmost pending vector, if there is one. */
  function OfferAccess(stack: Stack, a: StorageAccess, depth: nat): Stack {
    if stack == [] then []
    else stack[..|stack| - 1] + [AppendStorageAccess(stack[|stack| - 1], a, depth)]
  }

  /** EXT* and BALANCE accesses open a vector of their own when nothing is pending. */
  function PushTouch(stack: Stack, r: AccountAccess): Stack {
    if stack == [] then [[r]] else stack[..|stack| - 1] + [stack[|stack| - 1] + [r]]
  }

  /** SELFDESTRUCT is only recorded when something is pending. */
  function PushSelfDestruct(stack: Stack, r: AccountAccess): Stack {
    if stack == [] then [] else stack[..|stack| - 1] + [stack[|stack| - 1] + [r]]
  }

  function SetPost(r: AccountAccess, post: Post): AccountAccess {
    r.(newBalance := post.balance, newNonce := post.nonce)
  }

  /** The vector of a finished frame once its revert status and post-call state are known. */
  function Finished(top: Records, depth: nat, isRevert: bool, post: Option<Post>): (r: Records)
    ensures |r| == |top|
  {
    var flagged := if isRevert then FlagRecords(top) else top;
    if |flagged| > 0 && flagged[0].depth == depth && post.Some? then
      [SetPost(flagged[0], post.value)] + flagged[1..]
    else
      flagged
  }

  /** `call_end` and `create_end`: pop, flag, update and merge.  The root call is not recorded. */
  function EndFrame(stack: Stack, depth: nat, isRevert: bool, post: Option<Post>): Stack {
    if depth == 0 || stack == [] then stack
    else
      var rest := stack[..|stack| - 1];
      var top := Finished(stack[|stack| - 1], depth, isRevert, post);
      if top == [] then rest else Merge(rest, top)
  }

  /** A finished vector joins the one below it, or is pushed back if there is none. */
  function Merge(rest: Stack, top: Records): Stack {
    if rest == [] then [top] else rest[..|rest| - 1] + [rest[|rest| - 1] + top]
  }

  function CallRecord(kind: AccessKind, accessor: Address, account: Address, initialized: bool,
                      balance: Word, nonce: nat, depth: nat): AccountAccess
  {
    AccountAccess(accessor, account, kind, initialized, balance, 0, nonce, 0, false, [], depth)
  }

  function CreateRecord(accessor: Address, account: Address, depth: nat): AccountAccess {
    AccountAccess(accessor, account, Create, true, 0, 0, 0, 1, false, [], depth)
  }

  // ---------------------------------------------------------------------------------------------
  // What a stack of pending vectors says, read from the bottom up
  // ---------------------------------------------------------------------------------------------

  /** One recorded happening: an account access, or a storage access.  `Resume` records only group
      storage accesses and are no happening of their own. */
  datatype Item = Account(record: AccountAccess) | Storage(access: StorageAccess)

  function FlagItem(it: Item): Item {
    match it
    case Account(r) => Account(r.(reverted := true))
    case Storage(a) => Storage(FlagAccess(a))
  }

  function FlagItems(s: seq<Item>): seq<Item> {
    seq(|s|, i requires 0 <= i < |s| => FlagItem(s[i]))
  }

  function StorageItems(s: seq<StorageAccess>): seq<Item> {
    seq(|s|, i requires 0 <= i < |s| => Storage(s[i]))
  }

  function Header(r: AccountAccess): seq<Item> {
    if r.kind.Resume? then [] else [Account(r.(storageAccesses := []))]
  }

  function RecordItems(r: AccountAccess): seq<Item> {
    Header(r) + StorageItems(r.storageAccesses)
  }

  function Items(v: Records): seq<Item> {
    if v == [] then [] else Items(v[..|v| - 1]) + RecordItems(v[|v| - 1])
  }

  function StackItems(stack: Stack): seq<Item> {
    if stack == [] then [] else StackItems(stack[..|stack| - 1]) + Items(stack[|stack| - 1])
  }

  lemma {:induction false} ItemsConcat(v: Records, w: Records)
    ensures Items(v + w) == Items(v) + Items(w)
  {
    if w == [] {
      assert v + w == v;
    } else {
      var n := |w| - 1;
      assert Items(v + w) == Items(v + w[..n]) + RecordItems(w[n]) by {
        assert (v + w)[..|v + w| - 1] == v + w[..n];
      }
      ItemsConcat(v, w[..n]);
      Assoc(Items(v), Items(w[..n]), RecordItems(w[n]));
    }
  }

  lemma ItemsSnoc(v: Records, r: AccountAccess)
    ensures Items(v + [r]) == Items(v) + RecordItems(r)
  {
    assert (v + [r])[..|v|] == v;
  }

  lemma ItemsSingle(r: AccountAccess)
    ensures Items([r]) == RecordItems(r)
  {
    ItemsSnoc([], r);
    assert [] + [r] == [r];
  }

  lemma StackItemsSnoc(stack: Stack, v: Records)
    ensures StackItems(stack + [v]) == StackItems(stack) + Items(v)
  {
    assert (stack + [v])[..|stack|] == stack;
  }

  /** The first item of a vector that does not start with a `Resume` record is its own header. */
  lemma {:induction false} FirstItem(v: Records)
    requires v != [] && !v[0].kind.Resume?
    ensures |Items(v)| > 0 && Items(v)[0] == Account(v[0].(storageAccesses := []))
  {
    if |v| == 1 {
      ItemsSingle(v[0]);
      assert v == [v[0]];
    } else {
      FirstItem(v[..|v| - 1]);
    }
  }

  lemma RecordItemsFlag(r: AccountAccess)
    ensures RecordItems(FlagRecord(r)) == FlagItems(RecordItems(r))
  {
  }

  /** Flagging every record of a vector flags every item it contains, and nothing else. */
  lemma {:induction false} ItemsFlag(v: Records)
    ensures Items(FlagRecords(v)) == FlagItems(Items(v))
  {
    if v != [] {
      var n := |v| - 1;
      ItemsFlag(v[..n]);
      assert FlagRecords(v)[..n] == FlagRecords(v[..n]);
      RecordItemsFlag(v[n]);
    }
  }

  lemma AddToLast(last: Records, a: StorageAccess)
    requires last != []
    ensures var n := |last| - 1; Items(last[..n] + [AddAccess(last[n], a)]) == Items(last) + [Storage(a)]
  {
    hide Items, AddAccess;
    AddAccessItems(last[..|last| - 1], last[|last| - 1], a);
    SplitLast(last);
  }

  lemma AddResume(last: Records, a: StorageAccess)
    requires last != []
    ensures Items(last + [ResumeRecord(last[0], a)]) == Items(last) + [Storage(a)]
  {
    hide Items;
    ItemsSnoc(last, ResumeRecord(last[0], a));
  }

  /** An accepted storage access is appended after everything recorded so far, whichever record
      groups it, and leaves the vector's first record in charge. */
  lemma AppendStorageAccessItems(last: Records, a: StorageAccess, depth: nat)
    requires last != [] && last[0].depth < depth
    ensures var r := AppendStorageAccess(last, a, depth);
            && r != [] && r[0].depth == last[0].depth && r[0].kind == last[0].kind
            && Items(r) == Items(last) + [Storage(a)]
  {
    hide Items;
    var n := |last| - 1;
    AddToLast(last, a);
    AddResume(last, a);
    if n == 0 {
      assert last[..n] + [AddAccess(last[n], a)] == [AddAccess(last[0], a)];
    }
  }

  lemma AddAccessItems(v: Records, r: AccountAccess, a: StorageAccess)
    ensures Items(v + [AddAccess(r, a)]) == Items(v + [r]) + [Storage(a)]
  {
    ItemsSnoc(v, r);
    ItemsSnoc(v, AddAccess(r, a));
    AddAccessRecordItems(r, a);
    Assoc(Items(v), RecordItems(r), [Storage(a)]);
  }

  lemma AddAccessRecordItems(r: AccountAccess, a: StorageAccess)
    ensures RecordItems(AddAccess(r, a)) == RecordItems(r) + [Storage(a)]
  {
    assert StorageItems(r.storageAccesses + [a]) == StorageItems(r.storageAccesses) + [Storage(a)];
  }

  function UpdateItem(it: Item, post: Post): Item {
    match it
    case Account(r) => Account(SetPost(r, post))
    case Storage(_) => it
  }

  function Flag(isRevert: bool, s: seq<Item>): (r: seq<Item>)
    ensures |r| == |s|
  {
    if isRevert then FlagItems(s) else s
  }

  /** What `Finished` does to a frame's items: the frame's own header takes the post-call state, and
      on a revert every item is flagged. */
  lemma FinishedItems(top: Records, depth: nat, isRevert: bool, post: Option<Post>)
    requires top != [] && !top[0].kind.Resume?
    ensures var r := Finished(top, depth, isRevert, post);
            && r[0].depth == top[0].depth && r[0].kind == top[0].kind
            && |Items(top)| > 0
            && Items(r) == if top[0].depth == depth && post.Some?
                           then var s := Flag(isRevert, Items(top)); s[0 := UpdateItem(s[0], post.value)]
                           else Flag(isRevert, Items(top))
  {
    FirstItem(top);
    ItemsFlag(top);
    if top[0].depth == depth && post.Some? {
      SetPostItems(if isRevert then FlagRecords(top) else top, post.value);
    }
  }

  lemma SetPostItems(v: Records, post: Post)
    requires v != [] && !v[0].kind.Resume?
    ensures |Items(v)| > 0
    ensures Items([SetPost(v[0], post)] + v[1..]) == Items(v)[0 := UpdateItem(Items(v)[0], post)]
  {
    var r, rest := v[0], v[1..];
    ItemsHead(v);
    ItemsCons(SetPost(r, post), rest);
    SetPostRecordItems(r, post);
    UpdateFirst(RecordItems(r), RecordItems(SetPost(r, post)), Items(rest), UpdateItem(RecordItems(r)[0], post));
  }

  lemma ItemsHead(v: Records)
    requires v != []
    ensures Items(v) == RecordItems(v[0]) + Items(v[1..])
  {
    ItemsCons(v[0], v[1..]);
    assert v == [v[0]] + v[1..];
  }

  lemma UpdateFirst<T>(x: seq<T>, y: seq<T>, tail: seq<T>, t: T)
    requires |x| > 0 && y == x[0 := t]
    ensures (x + tail)[0 := t] == y + tail
  {
  }

  lemma ItemsCons(r: AccountAccess, v: Records)
    ensures Items([r] + v) == RecordItems(r) + Items(v)
  {
    ItemsConcat([r], v);
    ItemsSingle(r);
  }

  lemma SetPostRecordItems(r: AccountAccess, post: Post)
    requires !r.kind.Resume?
    ensures |RecordItems(r)| > 0
    ensures RecordItems(SetPost(r, post)) == RecordItems(r)[0 := UpdateItem(RecordItems(r)[0], post)]
  {
  }

  /** Merging a finished vector into the one below it does not reorder anything. */
  lemma MergeItems(rest: Stack, top: Records)
    ensures StackItems(Merge(rest, top)) == StackItems(rest) + Items(top)
  {
    if rest == [] {
      StackItemsSnoc([], top);
      assert [] + [top] == [top];
    } else {
      var n := |rest| - 1;
      StackItemsSnoc(rest[..n], rest[n] + top);
      ItemsConcat(rest[n], top);
      assert StackItems(rest) == StackItems(rest[..n]) + Items(rest[n]);
      Assoc(StackItems(rest[..n]), Items(rest[n]), Items(top));
    }
  }
}
