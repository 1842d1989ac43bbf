/** The registry of terminal activations behind system notifications: a map and a queue that must agree. */
module Registry {
  import opened Base
  import opened Rows

  const MAX_SYSTEM_ACTIVATIONS := 64

  datatype Entry<T> = Entry(token: int, activation: T)

  /** One place in the eviction order. */
  datatype Place = Place(identifier: string, token: int)

  datatype Store<T> = Store(entries: map<string, Entry<T>>, order: seq<Place>, nextToken: int)

  /** wrapping_add(1).max(1) on 64 bits. */
  function NextToken(token: int): int {
    if token == U64_MAX then 1 else token + 1
  }

  /** The token counter runs through all 64-bit values but 0. */
  lemma TokensSkipZero(token: int)
    requires 0 <= token < 0x1_0000_0000_0000_0000
    ensures NextToken(token) == Max((token + 1) % 0x1_0000_0000_0000_0000, 1) && 1 <= NextToken(token) < 0x1_0000_0000_0000_0000
  {
    if token + 1 < 0x1_0000_0000_0000_0000 {
      assert (token + 1) % 0x1_0000_0000_0000_0000 == token + 1;
    }
  }

  function Others(identifier: string): Place -> bool {
    (p: Place) => p.identifier != identifier
  }

  function OtherPlaces(identifier: string, token: int): Place -> bool {
    (p: Place) => p.identifier != identifier || p.token != token
  }

  function Forget<T>(s: Store<T>, identifier: string): Store<T> {
    s.(entries := s.entries - {identifier}, order := Filter(s.order, Others(identifier)))
  }

  /** The eviction loop. */
  function MakeRoom<T>(s: Store<T>): Store<T>
    decreases |s.order|
  {
    if |s.entries| < MAX_SYSTEM_ACTIVATIONS || s.order == [] then s
    else
      var oldest := s.order[0];
      var held := oldest.identifier in s.entries && s.entries[oldest.identifier].token == oldest.token;
      MakeRoom(s.(entries := if held then s.entries - {oldest.identifier} else s.entries, order := s.order[1..]))
  }

  function Replace<T>(s: Store<T>, identifier: string, activation: Option<T>): (Store<T>, Option<int>) {
    var forgotten := Forget(s, identifier);
    if activation.None? then (forgotten, None)
    else
      var room := MakeRoom(forgotten);
      var token := NextToken(room.nextToken);
      (Store(room.entries[identifier := Entry(token, activation.value)], room.order + [Place(identifier, token)], token),
       Some(token))
  }

  function RemoveIf<T>(s: Store<T>, identifier: string, token: int): Store<T> {
    if identifier in s.entries && s.entries[identifier].token == token then
      s.(entries := s.entries - {identifier}, order := Filter(s.order, OtherPlaces(identifier, token)))
    else s
  }

  function TakeEntry<T>(s: Store<T>, identifier: string): (Store<T>, Option<T>) {
    if identifier !in s.entries then (s, None)
    else (Forget(s, identifier), Some(s.entries[identifier].activation))
  }

  // ---- A bounded first-in-first-out map ----

  /** The reference: identifiers with their entries, oldest first, none twice. */
  type Fifo<T> = seq<(string, Entry<T>)>

  function NotNamed<T(!new)>(identifier: string): ((string, Entry<T>)) -> bool {
    (e: (string, Entry<T>)) => e.0 != identifier
  }

  function FifoReplace<T(!new)>(f: Fifo<T>, identifier: string, entry: Entry<T>): Fifo<T> {
    var others := Filter(f, NotNamed(identifier));
    (if |others| >= 64 then others[1..] else others) + [(identifier, entry)]
  }

  ghost predicate NamesDistinct(order: seq<Place>) {
    forall i, j :: 0 <= i < j < |order| ==> order[i].identifier != order[j].identifier
  }

  function TokenOf(p: Place): int { p.token }

  /** Each identifier has one place, later places have later tokens, and all were handed out. */
  ghost predicate OrderSound(order: seq<Place>, nextToken: int) {
    NamesDistinct(order) && Ascending(order, TokenOf) && forall p :: p in order ==> 0 < p.token <= nextToken
  }

  ghost predicate SamePairs<T(!new)>(entries: map<string, Entry<T>>, order: seq<Place>) {
    && (forall p :: p in order ==> p.identifier in entries && entries[p.identifier].token == p.token)
    && (forall id :: id in entries ==> Place(id, entries[id].token) in order)
  }

  /** entries and order hold the same identifier and token pairs, without repeats, at most 64 of them. */
  ghost predicate Agree<T(!new)>(s: Store<T>) {
    && OrderSound(s.order, s.nextToken)
    && SamePairs(s.entries, s.order)
    && |s.entries| <= 64
    && 0 <= s.nextToken
  }

  ghost predicate Named<T>(order: seq<Place>, entries: map<string, Entry<T>>) {
    forall p :: p in order ==> p.identifier in entries
  }

  /** The map in queue order. */
  function FifoOf<T(!new)>(order: seq<Place>, entries: map<string, Entry<T>>): Fifo<T>
    requires Named(order, entries)
  {
    if order == [] then []
    else
      var m := |order| - 1;
      FifoOf(order[..m], entries) + [(order[m].identifier, entries[order[m].identifier])]
  }

  function AsFifo<T(!new)>(s: Store<T>): Fifo<T>
    requires Named(s.order, s.entries)
  {
    FifoOf(s.order, s.entries)
  }

  lemma {:induction false} FifoOfAt<T(!new)>(order: seq<Place>, entries: map<string, Entry<T>>)
    requires Named(order, entries)
    ensures |FifoOf(order, entries)| == |order|
    ensures forall i :: 0 <= i < |order| ==> FifoOf(order, entries)[i] == (order[i].identifier, entries[order[i].identifier])
  {
    if order != [] { FifoOfAt(order[..|order| - 1], entries); }
  }

  /** Only the named entries matter. */
  lemma SameFifo<T(!new)>(order: seq<Place>, a: map<string, Entry<T>>, b: map<string, Entry<T>>)
    requires Named(order, a) && Named(order, b)
    requires forall p :: p in order ==> a[p.identifier] == b[p.identifier]
    ensures FifoOf(order, a) == FifoOf(order, b)
  {
    FifoOfAt(order, a);
    FifoOfAt(order, b);
  }

  lemma {:induction false} FilteredFifo<T(!new)>(order: seq<Place>, entries: map<string, Entry<T>>, identifier: string)
    requires Named(order, entries)
    ensures Named(Filter(order, Others(identifier)), entries)
    ensures FifoOf(Filter(order, Others(identifier)), entries) == Filter(FifoOf(order, entries), NotNamed(identifier))
  {
    if order != [] {
      var m := |order| - 1;
      FilteredFifo(order[..m], entries, identifier);
      var kept := Filter(order[..m], Others(identifier));
      if order[m].identifier != identifier {
        assert (kept + [order[m]])[..|kept|] == kept;
      }
    }
  }

  lemma {:induction false} IdentifierCount(order: seq<Place>)
    requires NamesDistinct(order)
    ensures |set p | p in order :: p.identifier| == |order|
  {
    if order != [] {
      var m := |order| - 1;
      IdentifierCount(order[..m]);
      var names, rest := set p | p in order :: p.identifier, set p | p in order[..m] :: p.identifier;
      assert names == rest + {order[m].identifier};
    }
  }

  /** The map and the queue have the same size. */
  lemma AgreeingSizes<T(!new)>(s: Store<T>)
    requires Agree(s)
    ensures |s.entries| == |s.order|
  {
    IdentifierCount(s.order);
    var names := set p | p in s.order :: p.identifier;
    forall id | id in s.entries.Keys ensures id in names {
      assert Place(id, s.entries[id].token).identifier == id;
    }
    assert s.entries.Keys == names;
  }

  lemma {:induction false} FilterKeepsNames(order: seq<Place>, identifier: string)
    requires NamesDistinct(order)
    ensures NamesDistinct(Filter(order, Others(identifier)))
  {
    if order != [] {
      var m := |order| - 1;
      FilterKeepsNames(order[..m], identifier);
      forall p | p in Filter(order[..m], Others(identifier)) ensures p.identifier != order[m].identifier {
        assert p in order[..m];
        var i :| 0 <= i < m && order[..m][i] == p;
        assert order[i] == p;
      }
    }
  }

  lemma ForgetOrder(order: seq<Place>, nextToken: int, identifier: string)
    requires OrderSound(order, nextToken)
    ensures OrderSound(Filter(order, Others(identifier)), nextToken)
  {
    hide Filter, NamesDistinct, Ascending;
    FilterKeepsNames(order, identifier);
    FilterAscending(order, Others(identifier), TokenOf);
  }

  lemma ForgetPairs<T(!new)>(entries: map<string, Entry<T>>, order: seq<Place>, identifier: string)
    requires SamePairs(entries, order)
    ensures SamePairs(entries - {identifier}, Filter(order, Others(identifier)))
    ensures forall p :: p in Filter(order, Others(identifier)) ==> p.identifier != identifier
  {
    hide Filter;
  }

  lemma FewerEntries<T(!new)>(entries: map<string, Entry<T>>, identifier: string)
    ensures |entries - {identifier}| <= |entries|
  {
    SubsetSize((entries - {identifier}).Keys, entries.Keys);
  }

  lemma PairsAreNamed<T(!new)>(entries: map<string, Entry<T>>, order: seq<Place>)
    requires SamePairs(entries, order)
    ensures Named(order, entries)
  {
  }

  lemma ForgetAgrees<T(!new)>(s: Store<T>, identifier: string)
    requires Agree(s)
    ensures var after := Forget(s, identifier);
            && Agree(after) && Named(s.order, s.entries) && Named(after.order, after.entries)
            && AsFifo(after) == Filter(AsFifo(s), NotNamed(identifier))
            && identifier !in after.entries && forall p :: p in after.order ==> p.identifier != identifier
  {
    hide Filter, OrderSound, SamePairs, FifoOf;
    var after := Forget(s, identifier);
    ForgetOrder(s.order, s.nextToken, identifier);
    ForgetPairs(s.entries, s.order, identifier);
    FewerEntries(s.entries, identifier);
    PairsAreNamed(s.entries, s.order);
    PairsAreNamed(after.entries, after.order);
    FilteredFifo(s.order, s.entries, identifier);
    SameFifo(after.order, s.entries, after.entries);
  }

  /** Making room drops the oldest entry of a full registry and nothing else. */
  lemma MakeRoomEvictsOldest<T(!new)>(s: Store<T>)
    requires Agree(s)
    ensures var after := MakeRoom(s);
            && Agree(after) && after.nextToken == s.nextToken && |after.entries| < MAX_SYSTEM_ACTIVATIONS
            && Named(s.order, s.entries) && Named(after.order, after.entries)
            && AsFifo(after) == (if |s.order| >= MAX_SYSTEM_ACTIVATIONS then AsFifo(s)[1..] else AsFifo(s))
            && (forall id :: id in after.entries ==> id in s.entries)
            && (forall p :: p in after.order ==> p in s.order)
  {
    hide FifoOf, OrderSound;
    AgreeingSizes(s);
    PairsAreNamed(s.entries, s.order);
    if |s.entries| >= MAX_SYSTEM_ACTIVATIONS {
      var oldest := s.order[0];
      assert oldest in s.order;
      var dropped := s.(entries := s.entries - {oldest.identifier}, order := s.order[1..]);
      assert dropped.entries.Keys == s.entries.Keys - {oldest.identifier};
      DropOldestAgrees(s);
      assert MakeRoom(s) == MakeRoom(dropped) == dropped;
    }
  }

  lemma DropOrder(order: seq<Place>, nextToken: int)
    requires OrderSound(order, nextToken) && order != []
    ensures OrderSound(order[1..], nextToken)
    ensures forall p :: p in order[1..] ==> p in order && p.identifier != order[0].identifier
  {
    var rest := order[1..];
    forall i, j | 0 <= i < j < |rest| ensures TokenOf(rest[i]) < TokenOf(rest[j]) {
      assert TokenOf(order[i + 1]) < TokenOf(order[j + 1]);
    }
    forall p | p in rest ensures p in order && p.identifier != order[0].identifier {
      var i :| 0 <= i < |rest| && rest[i] == p;
      assert order[i + 1] == p;
    }
  }

  lemma DropPairs<T(!new)>(entries: map<string, Entry<T>>, order: seq<Place>)
    requires SamePairs(entries, order) && order != []
    requires forall p :: p in order[1..] ==> p in order && p.identifier != order[0].identifier
    ensures SamePairs(entries - {order[0].identifier}, order[1..])
  {
    var kept := entries - {order[0].identifier};
    forall id | id in kept ensures Place(id, kept[id].token) in order[1..] {
      var p := Place(id, entries[id].token);
      var i :| 0 <= i < |order| && order[i] == p;
      assert order[1..][i - 1] == p;
    }
  }

  lemma DropFifo<T(!new)>(order: seq<Place>, entries: map<string, Entry<T>>, fewer: map<string, Entry<T>>)
    requires Named(order, entries) && order != [] && Named(order[1..], fewer)
    requires forall p :: p in order[1..] ==> p.identifier in entries && fewer[p.identifier] == entries[p.identifier]
    ensures FifoOf(order[1..], fewer) == FifoOf(order, entries)[1..]
  {
    hide FifoOf;
    FifoOfAt(order, entries);
    FifoOfAt(order[1..], fewer);
    var rest := order[1..];
    forall i | 0 <= i < |rest| ensures FifoOf(rest, fewer)[i] == FifoOf(order, entries)[1..][i] {
      assert rest[i] == order[i + 1] && rest[i] in rest;
    }
  }

  lemma DropOldestAgrees<T(!new)>(s: Store<T>)
    requires Agree(s) && s.order != []
    ensures var dropped := s.(entries := s.entries - {s.order[0].identifier}, order := s.order[1..]);
            && Agree(dropped) && Named(s.order, s.entries) && Named(dropped.order, dropped.entries)
            && AsFifo(dropped) == AsFifo(s)[1..]
            && forall p :: p in dropped.order ==> p in s.order
  {
    hide OrderSound, SamePairs, FifoOf;
    var dropped := s.(entries := s.entries - {s.order[0].identifier}, order := s.order[1..]);
    DropOrder(s.order, s.nextToken);
    DropPairs(s.entries, s.order);
    FewerEntries(s.entries, s.order[0].identifier);
    PairsAreNamed(s.entries, s.order);
    PairsAreNamed(dropped.entries, dropped.order);
    DropFifo(s.order, s.entries, dropped.entries);
  }

  lemma AppendOrder(order: seq<Place>, nextToken: int, identifier: string, token: int)
    requires OrderSound(order, nextToken) && 0 <= nextToken < token
    requires forall p :: p in order ==> p.identifier != identifier
    ensures OrderSound(order + [Place(identifier, token)], token)
  {
    var after := order + [Place(identifier, token)];
    forall i, j | 0 <= i < j < |after|
      ensures after[i].identifier != after[j].identifier && TokenOf(after[i]) < TokenOf(after[j])
    {
      assert after[i] == order[i] && order[i] in order;
      if j < |order| { assert TokenOf(order[i]) < TokenOf(order[j]); }
    }
  }

  lemma AppendPairs<T(!new)>(entries: map<string, Entry<T>>, order: seq<Place>, identifier: string, entry: Entry<T>)
    requires SamePairs(entries, order) && identifier !in entries
    requires forall p :: p in order ==> p.identifier != identifier
    ensures SamePairs(entries[identifier := entry], order + [Place(identifier, entry.token)])
    ensures |entries[identifier := entry]| == |entries| + 1
  {
    var after := order + [Place(identifier, entry.token)];
    assert forall p :: p in after <==> p in order || p == Place(identifier, entry.token);
  }

  lemma AppendAgrees<T(!new)>(s: Store<T>, identifier: string, activation: T)
    requires Agree(s) && |s.entries| < MAX_SYSTEM_ACTIVATIONS && identifier !in s.entries && s.nextToken < U64_MAX
    requires forall p :: p in s.order ==> p.identifier != identifier
    ensures var token := NextToken(s.nextToken);
            var after := Store(s.entries[identifier := Entry(token, activation)], s.order + [Place(identifier, token)], token);
            && Agree(after) && Named(s.order, s.entries) && Named(after.order, after.entries)
            && AsFifo(after) == AsFifo(s) + [(identifier, Entry(token, activation))]
  {
    hide OrderSound, SamePairs;
    var token := NextToken(s.nextToken);
    var after := Store(s.entries[identifier := Entry(token, activation)], s.order + [Place(identifier, token)], token);
    AppendOrder(s.order, s.nextToken, identifier, token);
    AppendPairs(s.entries, s.order, identifier, Entry(token, activation));
    PairsAreNamed(s.entries, s.order);
    PairsAreNamed(after.entries, after.order);
    AppendFifo(s.order, s.entries, Place(identifier, token), after.entries);
  }

  lemma AppendFifo<T(!new)>(order: seq<Place>, entries: map<string, Entry<T>>, p: Place, more: map<string, Entry<T>>)
    requires Named(order, entries) && Named(order + [p], more)
    requires forall q :: q in order ==> q.identifier in more && more[q.identifier] == entries[q.identifier]
    ensures p.identifier in more
    ensures FifoOf(order + [p], more) == FifoOf(order, entries) + [(p.identifier, more[p.identifier])]
  {
    assert (order + [p])[..|order|] == order;
    assert p in order + [p];
    SameFifo(order, entries, more);
  }

  /**
   * A replacement is a bounded-FIFO insertion: the identifier's old entry goes, a full registry loses exactly its
   * oldest entry, and the new one goes to the back under a token greater than any before.
   */
  lemma ReplaceRefinesFifo<T(!new)>(s: Store<T>, identifier: string, activation: T)
    requires Agree(s) && s.nextToken < U64_MAX
    ensures var (after, token) := Replace(s, identifier, Some(activation));
            && token == Some(s.nextToken + 1) && after.nextToken == s.nextToken + 1
            && Agree(after)
            && AsFifo(after) == FifoReplace(AsFifo(s), identifier, Entry(s.nextToken + 1, activation))
            && (forall id :: id in s.entries ==> s.entries[id].token < s.nextToken + 1)
  {
    hide Filter, MakeRoom, FifoOf, OrderSound, SamePairs;
    var forgotten := Forget(s, identifier);
    ForgetAgrees(s, identifier);
    MakeRoomEvictsOldest(forgotten);
    FifoSize(forgotten);
    var room := MakeRoom(forgotten);
    AppendAgrees(room, identifier, activation);
    OldTokens(s);
  }

  lemma OldTokens<T(!new)>(s: Store<T>)
    requires Agree(s)
    ensures forall id :: id in s.entries ==> s.entries[id].token <= s.nextToken
  {
  }

  lemma FifoSize<T(!new)>(s: Store<T>)
    requires Agree(s)
    ensures Named(s.order, s.entries) && |AsFifo(s)| == |s.order|
  {
    FifoOfAt(s.order, s.entries);
  }

  /** Withdrawing removes the identifier's entry, whatever its token. */
  lemma WithdrawRefinesFifo<T(!new)>(s: Store<T>, identifier: string)
    requires Agree(s)
    ensures var (after, token) := Replace(s, identifier, None);
            token == None && Agree(after) && AsFifo(after) == Filter(AsFifo(s), NotNamed(identifier))
    ensures var (after, activation) := TakeEntry(s, identifier);
            && Agree(after) && AsFifo(after) == Filter(AsFifo(s), NotNamed(identifier))
            && activation == (if identifier in s.entries then Some(s.entries[identifier].activation) else None)
  {
    hide Filter, AsFifo;
    ForgetAgrees(s, identifier);
    if identifier !in s.entries { AbsentChangesNothing(s, identifier); }
  }

  lemma AbsentChangesNothing<T(!new)>(s: Store<T>, identifier: string)
    requires Agree(s) && identifier !in s.entries
    ensures Named(s.order, s.entries) && Filter(AsFifo(s), NotNamed(identifier)) == AsFifo(s)
  {
    FifoOfAt(s.order, s.entries);
    forall e | e in AsFifo(s) ensures e.0 != identifier {
      var i :| 0 <= i < |AsFifo(s)| && AsFifo(s)[i] == e;
      assert s.order[i] in s.order;
    }
    FilterAll(AsFifo(s), NotNamed(identifier));
  }

  lemma {:induction false} FilterSame<T(!new)>(s: seq<T>, p: T -> bool, q: T -> bool)
    requires forall x :: x in s ==> p(x) == q(x)
    ensures Filter(s, p) == Filter(s, q)
  {
    if s != [] {
      FilterSame(s[..|s| - 1], p, q);
    }
  }

  /** remove_if removes the entry it was given the token of, and no other entry under that identifier. */
  lemma RemoveIfRefinesFifo<T(!new)>(s: Store<T>, identifier: string, token: int)
    requires Agree(s)
    ensures var after := RemoveIf(s, identifier, token);
            && Agree(after)
            && (if identifier in s.entries && s.entries[identifier].token == token
                then AsFifo(after) == Filter(AsFifo(s), NotNamed(identifier))
                else after == s)
  {
    hide Filter, AsFifo;
    if identifier in s.entries && s.entries[identifier].token == token {
      FilterSame(s.order, OtherPlaces(identifier, token), Others(identifier));
      ForgetAgrees(s, identifier);
    }
  }

  // ---- Old tokens over whole runs ----

  datatype Op<T> = DoReplace(identifier: string, activation: Option<T>) | DoRemoveIf(identifier: string, token: int) | DoTake(identifier: string)

  function ApplyOp<T>(s: Store<T>, op: Op<T>): Store<T> {
    match op
    case DoReplace(identifier, activation) => Replace(s, identifier, activation).0
    case DoRemoveIf(identifier, token) => RemoveIf(s, identifier, token)
    case DoTake(identifier) => TakeEntry(s, identifier).0
  }

  function ApplyAll<T>(s: Store<T>, ops: seq<Op<T>>): Store<T> {
    if ops == [] then s else ApplyOp(ApplyAll(s, ops[..|ops| - 1]), ops[|ops| - 1])
  }

  lemma OpKeepsAgreement<T(!new)>(s: Store<T>, op: Op<T>)
    requires Agree(s) && s.nextToken < U64_MAX
    ensures Agree(ApplyOp(s, op))
    ensures s.nextToken <= ApplyOp(s, op).nextToken <= s.nextToken + 1
  {
    hide Agree, Filter, MakeRoom, AsFifo;
    match op
    case DoReplace(identifier, Some(activation)) => ReplaceRefinesFifo(s, identifier, activation);
    case DoReplace(identifier, None) => WithdrawRefinesFifo(s, identifier);
    case DoRemoveIf(identifier, token) => RemoveIfRefinesFifo(s, identifier, token);
    case DoTake(identifier) => WithdrawRefinesFifo(s, identifier);
  }

  /** In every run too short to wrap the token, map and queue agree and stay within 64 entries. */
  lemma {:induction false} RunsAgree<T(!new)>(s: Store<T>, ops: seq<Op<T>>)
    requires Agree(s) && s.nextToken + |ops| <= U64_MAX
    ensures Agree(ApplyAll(s, ops)) && s.nextToken <= ApplyAll(s, ops).nextToken <= s.nextToken + |ops|
  {
    hide Agree, ApplyOp;
    if ops != [] {
      RunsAgree(s, ops[..|ops| - 1]);
      OpKeepsAgreement(ApplyAll(s, ops[..|ops| - 1]), ops[|ops| - 1]);
    }
  }

  /** Whatever is stored under the identifier is newer than the token. */
  ghost predicate Newer<T>(s: Store<T>, identifier: string, token: int) {
    identifier in s.entries ==> s.entries[identifier].token > token
  }

  lemma {:induction false} MakeRoomOnlyRemoves<T>(s: Store<T>)
    ensures forall id :: id in MakeRoom(s).entries ==> id in s.entries && MakeRoom(s).entries[id] == s.entries[id]
    ensures MakeRoom(s).nextToken == s.nextToken
    decreases |s.order|
  {
    if !(|s.entries| < MAX_SYSTEM_ACTIVATIONS || s.order == []) {
      var oldest := s.order[0];
      var held := oldest.identifier in s.entries && s.entries[oldest.identifier].token == oldest.token;
      MakeRoomOnlyRemoves(s.(entries := if held then s.entries - {oldest.identifier} else s.entries, order := s.order[1..]));
    }
  }

  lemma OpKeepsNewer<T(!new)>(s: Store<T>, op: Op<T>, identifier: string, token: int)
    requires s.nextToken < U64_MAX && token <= s.nextToken
    requires Newer(s, identifier, token) || (op.DoReplace? && op.identifier == identifier)
    ensures Newer(ApplyOp(s, op), identifier, token)
  {
    hide Filter, MakeRoom;
    if op.DoReplace? { MakeRoomOnlyRemoves(Forget(s, op.identifier)); }
  }

  /**
   * An old token is powerless: once its identifier has been replaced again, remove_if with it changes nothing, however
   * the run goes on.
   */
  lemma {:induction false} OldTokenIsPowerless<T(!new)>(s: Store<T>, ops: seq<Op<T>>, identifier: string, token: int, replaced: nat)
    requires Agree(s) && 0 <= token <= s.nextToken && s.nextToken + |ops| <= U64_MAX
    requires replaced < |ops| && ops[replaced].DoReplace? && ops[replaced].identifier == identifier
    ensures Newer(ApplyAll(s, ops), identifier, token)
    ensures RemoveIf(ApplyAll(s, ops), identifier, token) == ApplyAll(s, ops)
  {
    hide Agree, ApplyOp;
    var m := |ops| - 1;
    RunsAgree(s, ops[..m]);
    if replaced < m {
      assert ops[..m][replaced] == ops[replaced];
      OldTokenIsPowerless(s, ops[..m], identifier, token, replaced);
    }
    OpKeepsNewer(ApplyAll(s, ops[..m]), ops[m], identifier, token);
  }
}

/** The registry as the object behind the response handler. */
module ActivationRegistry {
  import opened Base
  import opened Rows
  import opened Registry

  class SystemActivationRegistry<T(!new)> {
    var entries: map<string, Entry<T>>
    var order: seq<Place>
    var nextToken: int

    function State(): Store<T>
      reads this
    {
      Store(entries, order, nextToken)
    }

    constructor ()
      ensures State() == Store(map[], [], 0) && Agree(State())
    {
      entries, order, nextToken := map[], [], 0;
    }

    method Replace(identifier: string, activation: Option<T>) returns (token: Option<int>)
      modifies this
      ensures (State(), token) == Registry.Replace(old(State()), identifier, activation)
    {
      hide Filter;
      entries := entries - {identifier};
      order := Filter(order, Others(identifier));
      if activation.None? { return None; }
      ghost var forgotten := State();
      while |entries| >= MAX_SYSTEM_ACTIVATIONS
        invariant MakeRoom(State()) == MakeRoom(forgotten)
        decreases |order|
      {
        if order == [] { break; }
        var oldest := order[0];
        order := order[1..];
        if oldest.identifier in entries && entries[oldest.identifier].token == oldest.token {
          entries := entries - {oldest.identifier};
        }
      }
      nextToken := NextToken(nextToken);
      entries := entries[identifier := Entry(nextToken, activation.value)];
      order := order + [Place(identifier, nextToken)];
      return Some(nextToken);
    }

    method RemoveIf(identifier: string, token: int)
      modifies this`entries, this`order
      ensures State() == Registry.RemoveIf(old(State()), identifier, token)
    {
      if identifier in entries && entries[identifier].token == token {
        entries := entries - {identifier};
        order := Filter(order, OtherPlaces(identifier, token));
      }
    }

    method Take(identifier: string) returns (activation: Option<T>)
      modifies this`entries, this`order
      ensures (State(), activation) == TakeEntry(old(State()), identifier)
    {
      if identifier !in entries { return None; }
      var entry := entries[identifier];
      entries := entries - {identifier};
      order := Filter(order, Others(identifier));
      return Some(entry.activation);
    }
  }
}
