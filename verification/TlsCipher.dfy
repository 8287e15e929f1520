/** ssl3_choose_cipher: the server's choice, with equal-preference groups. */
module TlsCipher {
  import opened Prelude

  datatype Cipher = Cipher(id: nat, minVersion: nat, maxVersion: nat, mkey: bv32, auth: bv32)

  /** What the handshake allows: the version, and the key exchanges and authentications the server can do. */
  datatype Config = Config(version: nat, maskK: bv32, maskA: bv32)

  /** Two masks have a bit in common. */
  predicate Meets(a: bv32, b: bv32) {
    a & b != 0
  }

  predicate HasBit(mask: bv32, i: bv32) {
    i < 32 && (mask >> i) & 1 == 1
  }

  lemma ShiftOneMore(mask: bv32, i: bv32)
    requires i < 31
    ensures mask >> (i + 1) == (mask >> i) >> 1
  {}

  lemma EvenHasMore(m: bv32)
    requires m != 0 && m & 1 == 0
    ensures m >> 1 != 0
  {}

  lemma LastShift(mask: bv32)
    requires mask >> 31 != 0
    ensures (mask >> 31) & 1 == 1
  {}

  /** A mask that is not empty has a bit at i or above, if it is not empty from i on. */
  lemma {:induction false} SomeBitFrom(mask: bv32, i: bv32) returns (k: bv32)
    requires i < 32 && mask >> i != 0
    ensures HasBit(mask, k)
    decreases 32 - i as int
  {
    if (mask >> i) & 1 == 1 {
      k := i;
    } else if i == 31 {
      LastShift(mask);
    } else {
      ShiftOneMore(mask, i);
      EvenHasMore(mask >> i);
      k := SomeBitFrom(mask, i + 1);
    }
  }

  lemma SomeBit(mask: bv32) returns (i: bv32)
    requires mask != 0
    ensures HasBit(mask, i)
  {
    i := SomeBitFrom(mask, 0);
  }

  lemma MeetsInABit(a: bv32, b: bv32)
    ensures Meets(a, b) <==> exists i: bv32 :: HasBit(a, i) && HasBit(b, i)
  {
    if Meets(a, b) {
      var i := SomeBit(a & b);
      assert HasBit(a, i) && HasBit(b, i);
    }
    forall i: bv32 | HasBit(a, i) && HasBit(b, i)
      ensures Meets(a, b)
    {
    }
  }

  predicate Supported(c: Cipher, config: Config) {
    c.minVersion <= config.version <= c.maxVersion && Meets(c.mkey, config.maskK) && Meets(c.auth, config.maskA)
  }

  /** sk_SSL_CIPHER_find on a list without an order: the first place, or the length. */
  function Find(list: seq<Cipher>, c: Cipher): (k: nat)
    ensures k <= |list| && (k < |list| <==> c in list)
    ensures k < |list| ==> list[k] == c
    ensures forall i :: 0 <= i < k ==> list[i] != c
  {
    if list == [] then 0 else if list[0] == c then 0 else 1 + Find(list[1..], c)
  }

  // ---- What is to be chosen ----

  /** A cipher that the server can use and the other list allows. */
  predicate Candidate(prio: seq<Cipher>, allow: seq<Cipher>, config: Config, i: nat) {
    i < |prio| && Supported(prio[i], config) && prio[i] in allow
  }

  /** Another element of the same group follows. Without flags every element is a group of its own. */
  predicate InGroup(flags: Option<seq<bool>>, i: nat) {
    flags.Some? && i < |flags.value| && flags.value[i]
  }

  /** How many groups end before i: the number of i's group. */
  function GroupOf(flags: Option<seq<bool>>, i: nat): nat {
    if i == 0 then 0 else GroupOf(flags, i - 1) + if InGroup(flags, i - 1) then 0 else 1
  }

  lemma {:induction false} GroupsGoUp(flags: Option<seq<bool>>, i: nat, j: nat)
    requires i <= j
    ensures GroupOf(flags, i) <= GroupOf(flags, j)
    ensures GroupOf(flags, i) == GroupOf(flags, j) <==> forall k :: i <= k < j ==> InGroup(flags, k)
  {
    if i < j {
      GroupsGoUp(flags, i, j - 1);
      assert (forall k :: i <= k < j ==> InGroup(flags, k)) <==>
             (forall k :: i <= k < j - 1 ==> InGroup(flags, k)) && InGroup(flags, j - 1);
    }
  }

  /** The group of i ends within the list. */
  predicate Closed(flags: Option<seq<bool>>, len: nat, i: nat) {
    exists k :: i <= k < len && !InGroup(flags, k)
  }

  /** Of two candidates the first is at least as good: in an earlier group, or in the same one and not
      behind in the other list. */
  predicate AsGood(prio: seq<Cipher>, flags: Option<seq<bool>>, allow: seq<Cipher>, w: nat, j: nat)
    requires w < |prio| && j < |prio|
  {
    || GroupOf(flags, w) < GroupOf(flags, j)
    || (GroupOf(flags, w) == GroupOf(flags, j) && Find(allow, prio[w]) <= Find(allow, prio[j]))
  }

  predicate Best(prio: seq<Cipher>, flags: Option<seq<bool>>, allow: seq<Cipher>, config: Config, w: nat) {
    Candidate(prio, allow, config, w) &&
    forall j | 0 <= j < |prio| :: Candidate(prio, allow, config, j) ==> AsGood(prio, flags, allow, w, j)
  }

  /** There is only one best cipher. */
  lemma BestIsOne(prio: seq<Cipher>, flags: Option<seq<bool>>, allow: seq<Cipher>, config: Config, v: nat, w: nat)
    requires Best(prio, flags, allow, config, v) && Best(prio, flags, allow, config, w)
    ensures prio[v] == prio[w] && (Closed(flags, |prio|, v) <==> Closed(flags, |prio|, w))
  {
    assert AsGood(prio, flags, allow, v, w) && AsGood(prio, flags, allow, w, v);
    var i, j := if v <= w then v else w, if v <= w then w else v;
    GroupsGoUp(flags, i, j);
    assert forall k :: i <= k < j ==> InGroup(flags, k);
    assert Closed(flags, |prio|, i) <==> Closed(flags, |prio|, j);
  }

  /** The best cipher, said of the flags: every candidate before it is of its group, and among the candidates of
      its group none is ahead of it in the other list. */
  lemma BestInFlags(prio: seq<Cipher>, flags: seq<bool>, allow: seq<Cipher>, config: Config, w: nat)
    requires |flags| == |prio| && w < |prio| && Candidate(prio, allow, config, w)
    ensures Best(prio, Some(flags), allow, config, w) <==>
            forall j | 0 <= j < |prio| && Candidate(prio, allow, config, j) ::
              && (j < w ==> forall k | j <= k < w :: flags[k])
              && ((forall k | j <= k < w || w <= k < j :: flags[k]) ==> Find(allow, prio[w]) <= Find(allow, prio[j]))
  {
    forall j | 0 <= j < |prio|
      ensures AsGood(prio, Some(flags), allow, w, j) <==>
              && (j < w ==> forall k | j <= k < w :: flags[k])
              && ((forall k | j <= k < w || w <= k < j :: flags[k]) ==> Find(allow, prio[w]) <= Find(allow, prio[j]))
    {
      GroupsGoUp(Some(flags), if j < w then j else w, if j < w then w else j);
      assert forall k | 0 <= k < |prio| :: InGroup(Some(flags), k) == flags[k];
    }
  }

  /** Whether anything usable is in both lists, and its group ends. */
  predicate IsChoice(prio: seq<Cipher>, flags: Option<seq<bool>>, allow: seq<Cipher>, config: Config, r: Option<Cipher>) {
    match r
    case Some(c) => exists w: nat | w < |prio| :: Best(prio, flags, allow, config, w) && prio[w] == c && Closed(flags, |prio|, w)
    case None => forall w: nat | w < |prio| :: Best(prio, flags, allow, config, w) ==> !Closed(flags, |prio|, w)
  }

  /** A list of candidates has a best one. */
  lemma {:induction false} BestAmong(prio: seq<Cipher>, flags: Option<seq<bool>>, allow: seq<Cipher>, config: Config, n: nat)
    returns (w: nat)
    requires n <= |prio| && exists i :: 0 <= i < n && Candidate(prio, allow, config, i)
    ensures w < n && Candidate(prio, allow, config, w)
    ensures forall j | 0 <= j < n :: Candidate(prio, allow, config, j) ==> AsGood(prio, flags, allow, w, j)
  {
    if exists i :: 0 <= i < n - 1 && Candidate(prio, allow, config, i) {
      w := BestAmong(prio, flags, allow, config, n - 1);
      if Candidate(prio, allow, config, n - 1) && !AsGood(prio, flags, allow, w, n - 1) {
        w := n - 1;
      }
    } else {
      w := n - 1;
    }
  }

  /** The choice is null exactly if there is no candidate or the best one's group does not end. */
  lemma NullChoice(prio: seq<Cipher>, flags: Option<seq<bool>>, allow: seq<Cipher>, config: Config)
    ensures IsChoice(prio, flags, allow, config, None) <==>
            forall i: nat | i < |prio| :: Candidate(prio, allow, config, i) ==>
              exists w: nat | w < |prio| :: Best(prio, flags, allow, config, w) && !Closed(flags, |prio|, w)
  {
    if exists i: nat :: i < |prio| && Candidate(prio, allow, config, i) {
      var w := BestAmong(prio, flags, allow, config, |prio|);
      assert Best(prio, flags, allow, config, w);
      forall v: nat | v < |prio| && Best(prio, flags, allow, config, v)
        ensures Closed(flags, |prio|, v) <==> Closed(flags, |prio|, w)
      {
        BestIsOne(prio, flags, allow, config, v, w);
      }
    }
  }

  // ---- The loop ----

  /** The state of the loop before element i: in the group of i, the best candidate so far has that rank, and
      earlier groups have none. */
  predicate Scanned(prio: seq<Cipher>, flags: Option<seq<bool>>, allow: seq<Cipher>, config: Config, i: nat, min: int) {
    if min < 0 then forall j: nat | j < i :: !Candidate(prio, allow, config, j)
    else
      && min < |allow|
      && (exists w: nat | w < i :: Candidate(prio, allow, config, w) && Find(allow, prio[w]) == min)
      && forall j: nat | j < i :: Candidate(prio, allow, config, j) ==>
           min <= Find(allow, prio[j]) && GroupOf(flags, j) == GroupOf(flags, i)
  }

  /** Leaving a group in which there was a candidate: the choice is made. */
  lemma Leaves(prio: seq<Cipher>, flags: Option<seq<bool>>, allow: seq<Cipher>, config: Config, i: nat, min: nat)
    requires i < |prio| && !InGroup(flags, i) && min < |allow|
    requires exists w: nat | w <= i :: Candidate(prio, allow, config, w) && Find(allow, prio[w]) == min
    requires forall j: nat | j <= i :: Candidate(prio, allow, config, j) ==>
               min <= Find(allow, prio[j]) && GroupOf(flags, j) == GroupOf(flags, i)
    ensures IsChoice(prio, flags, allow, config, Some(allow[min]))
  {
    var w: nat :| w <= i && Candidate(prio, allow, config, w) && Find(allow, prio[w]) == min;
    forall j | 0 <= j < |prio| && Candidate(prio, allow, config, j)
      ensures AsGood(prio, flags, allow, w, j)
    {
      if i < j {
        GroupsGoUp(flags, i + 1, j);
      }
    }
    assert Best(prio, flags, allow, config, w);
    assert Closed(flags, |prio|, w);
  }

  /** The end of the list: with a candidate its group has not ended. */
  lemma Runs(prio: seq<Cipher>, flags: Option<seq<bool>>, allow: seq<Cipher>, config: Config, min: int)
    requires Scanned(prio, flags, allow, config, |prio|, min)
    ensures IsChoice(prio, flags, allow, config, None)
  {
    forall w: nat | w < |prio| && Best(prio, flags, allow, config, w)
      ensures !Closed(flags, |prio|, w)
    {
      GroupsGoUp(flags, w, |prio|);
    }
  }

  /** One element on, when the choice is not yet made. */
  lemma ScansOn(prio: seq<Cipher>, flags: Option<seq<bool>>, allow: seq<Cipher>, config: Config, i: nat, min: int, min1: int)
    requires i < |prio| && -1 <= min && Scanned(prio, flags, allow, config, i, min)
    requires if Candidate(prio, allow, config, i)
             then InGroup(flags, i) && min1 == (if min == -1 || min > Find(allow, prio[i]) then Find(allow, prio[i]) else min)
             else min1 == min && (InGroup(flags, i) || min == -1)
    ensures Scanned(prio, flags, allow, config, i + 1, min1)
  {
    assert InGroup(flags, i) ==> GroupOf(flags, i + 1) == GroupOf(flags, i);
  }

  /** The loop of ssl3_choose_cipher. */
  method Scan(prio: seq<Cipher>, flags: Option<seq<bool>>, allow: seq<Cipher>, config: Config) returns (r: Option<Cipher>)
    ensures IsChoice(prio, flags, allow, config, r)
  {
    hide GroupOf, IsChoice;
    var groupMin: int := -1;
    for i := 0 to |prio|
      invariant -1 <= groupMin && Scanned(prio, flags, allow, config, i, groupMin)
    {
      var index := Find(allow, prio[i]);
      ghost var min := groupMin;
      if Supported(prio[i], config) && index < |allow| {
        assert Candidate(prio, allow, config, i);
        if InGroup(flags, i) {
          if groupMin == -1 || groupMin > index {
            groupMin := index;
          }
        } else {
          if groupMin != -1 && groupMin < index {
            index := groupMin;
          }
          Leaves(prio, flags, allow, config, i, index);
          return Some(allow[index]);
        }
      }
      if !InGroup(flags, i) && groupMin != -1 {
        Leaves(prio, flags, allow, config, i, groupMin);
        return Some(allow[groupMin]);
      }
      ScansOn(prio, flags, allow, config, i, min, groupMin);
    }
    Runs(prio, flags, allow, config, groupMin);
    r := None;
  }

  /** With a last element that ends its group, as in every well-formed list, all groups end. */
  lemma GroupsEnd(flags: seq<bool>, i: nat)
    requires i < |flags| && !flags[|flags| - 1]
    ensures Closed(Some(flags), |flags|, i)
  {
    assert !InGroup(Some(flags), |flags| - 1);
  }

  /** Without groups the choice is the first usable cipher. */
  lemma {:induction false} FirstIsBest(prio: seq<Cipher>, allow: seq<Cipher>, config: Config, w: nat)
    ensures Best(prio, None, allow, config, w) <==>
            Candidate(prio, allow, config, w) && forall j: nat | j < w :: !Candidate(prio, allow, config, j)
    ensures w < |prio| ==> Closed(None, |prio|, w)
  {
    assert w < |prio| ==> !InGroup(None, w);
    if Candidate(prio, allow, config, w) {
      forall j: nat | j < |prio| && j != w
        ensures AsGood(prio, None, allow, w, j) <==> w < j
      {
        GroupsGoUp(None, if j < w then j else w, if j < w then w else j);
        assert !InGroup(None, if j < w then j else w);
      }
      assert forall j: nat | j < w :: Candidate(prio, allow, config, j) ==> !AsGood(prio, None, allow, w, j);
    }
  }

  /** ssl3_choose_cipher. A client list that does not parse gives none. */
  method ChooseCipher(serverPreference: bool, server: seq<Cipher>, flags: seq<bool>, client: Option<seq<Cipher>>, config: Config)
    returns (r: Option<Cipher>)
    requires |flags| == |server|
    ensures client.None? ==> r.None?
    ensures r.Some? ==> r.value in server && r.value in client.value
    ensures r.Some? ==> r.value.minVersion <= config.version <= r.value.maxVersion
    ensures r.Some? ==> Meets(r.value.mkey, config.maskK) && Meets(r.value.auth, config.maskA)
    ensures client.Some? && r.None? && (!serverPreference || flags == [] || !flags[|flags| - 1]) ==>
              forall c <- server | c in client.value ::
                c.minVersion <= config.version <= c.maxVersion ==> !Meets(c.mkey, config.maskK) || !Meets(c.auth, config.maskA)
    ensures r.Some? && !serverPreference ==>
              forall c <- client.value[..Find(client.value, r.value)] | c in server ::
                c.minVersion <= config.version <= c.maxVersion ==> !Meets(c.mkey, config.maskK) || !Meets(c.auth, config.maskA)
    ensures client.Some? && serverPreference ==> IsChoice(server, Some(flags), client.value, config, r)
    ensures client.Some? && serverPreference && r.None? && (flags == [] || !flags[|flags| - 1]) ==>
              forall c <- server :: Supported(c, config) ==> c !in client.value
    ensures client.Some? && !serverPreference ==>
              forall c :: r == Some(c) <==>
                exists w: nat :: w < |client.value| && client.value[w] == c && Supported(c, config) && c in server
                  && forall j: nat | j < w :: !(Supported(client.value[j], config) && client.value[j] in server)
  {
    hide Supported, IsChoice, Find, Meets;
    if client.None? {
      return None;
    }
    if serverPreference {
      r := Scan(server, Some(flags), client.value, config);
      ByServer(server, flags, client.value, config, r);
    } else {
      r := Scan(client.value, None, server, config);
      FirstInFields(client.value, server, config, r);
      FirstIsChoice(client.value, server, config, r);
    }
  }

  lemma ByServer(server: seq<Cipher>, flags: seq<bool>, client: seq<Cipher>, config: Config, r: Option<Cipher>)
    requires |flags| == |server| && IsChoice(server, Some(flags), client, config, r)
    ensures r.Some? ==> r.value in server && r.value in client
    ensures r.Some? ==> r.value.minVersion <= config.version <= r.value.maxVersion
    ensures r.Some? ==> Meets(r.value.mkey, config.maskK) && Meets(r.value.auth, config.maskA)
    ensures r.None? && (flags == [] || !flags[|flags| - 1]) ==>
              forall c <- server :: Supported(c, config) ==> c !in client
    ensures r.None? && (flags == [] || !flags[|flags| - 1]) ==>
              forall c <- server | c in client ::
                c.minVersion <= config.version <= c.maxVersion ==> !Meets(c.mkey, config.maskK) || !Meets(c.auth, config.maskA)
  {
    hide Supported, IsChoice;
    if r.None? && (flags == [] || !flags[|flags| - 1]) {
      NothingShared(server, flags, client, config);
      FieldsOfUnsupported(server, client, config);
    }
    ChoiceInFields(server, Some(flags), client, config, r);
  }

  lemma NothingShared(server: seq<Cipher>, flags: seq<bool>, client: seq<Cipher>, config: Config)
    requires |flags| == |server| && (flags == [] || !flags[|flags| - 1])
    requires IsChoice(server, Some(flags), client, config, None)
    ensures forall c <- server :: Supported(c, config) ==> c !in client
  {
    NullChoice(server, Some(flags), client, config);
    forall c | c in server && Supported(c, config)
      ensures c !in client
    {
      var i :| 0 <= i < |server| && server[i] == c;
      if Candidate(server, client, config, i) {
        var w: nat :| w < |server| && Best(server, Some(flags), client, config, w) && !Closed(Some(flags), |server|, w);
        GroupsEnd(flags, w);
      }
    }
  }

  /** What is chosen, said of the fields of the cipher. */
  lemma ChoiceInFields(prio: seq<Cipher>, flags: Option<seq<bool>>, allow: seq<Cipher>, config: Config, r: Option<Cipher>)
    requires IsChoice(prio, flags, allow, config, r)
    ensures r.Some? ==> r.value in prio && r.value in allow
    ensures r.Some? ==> r.value.minVersion <= config.version <= r.value.maxVersion
    ensures r.Some? ==> Meets(r.value.mkey, config.maskK) && Meets(r.value.auth, config.maskA)
    ensures r.Some? ==> r.value.mkey & config.maskK != 0 && r.value.auth & config.maskA != 0
  {
    if r.Some? {
      var w: nat :| w < |prio| && Best(prio, flags, allow, config, w) && prio[w] == r.value && Closed(flags, |prio|, w);
      assert Candidate(prio, allow, config, w);
    }
  }

  lemma FieldsOfUnsupported(list: seq<Cipher>, other: seq<Cipher>, config: Config)
    requires forall c <- list | c in other :: !Supported(c, config)
    ensures forall c <- list | c in other ::
              c.minVersion <= config.version <= c.maxVersion ==> !Meets(c.mkey, config.maskK) || !Meets(c.auth, config.maskA)
  {
    forall c <- list | c in other && c.minVersion <= config.version <= c.maxVersion
      ensures !Meets(c.mkey, config.maskK) || !Meets(c.auth, config.maskA)
    {
      assert !Supported(c, config);
    }
  }

  lemma NoneIsNone(client: seq<Cipher>, server: seq<Cipher>, config: Config, j: nat)
    requires IsChoice(client, None, server, config, None) && j < |client|
    ensures !Candidate(client, server, config, j)
  {
    if Candidate(client, server, config, j) {
      var w := BestAmong(client, None, server, config, |client|);
      assert Best(client, None, server, config, w);
      FirstIsBest(client, server, config, w);
      assert false;
    }
  }

  /** Among those the client puts before the one chosen nothing can be used. */
  lemma FirstInFields(client: seq<Cipher>, server: seq<Cipher>, config: Config, r: Option<Cipher>)
    requires IsChoice(client, None, server, config, r)
    ensures r.Some? ==> r.value in client && r.value in server
    ensures r.Some? ==> r.value.minVersion <= config.version <= r.value.maxVersion
    ensures r.Some? ==> Meets(r.value.mkey, config.maskK) && Meets(r.value.auth, config.maskA)
    ensures r.None? ==> forall c <- server | c in client ::
              c.minVersion <= config.version <= c.maxVersion ==> !Meets(c.mkey, config.maskK) || !Meets(c.auth, config.maskA)
    ensures r.Some? ==> forall c <- client[..Find(client, r.value)] | c in server ::
              c.minVersion <= config.version <= c.maxVersion ==> !Meets(c.mkey, config.maskK) || !Meets(c.auth, config.maskA)
  {
    ChoiceInFields(client, None, server, config, r);
    if r.Some? {
      var v: nat :| v < |client| && Best(client, None, server, config, v) && client[v] == r.value;
      FirstIsBest(client, server, config, v);
      forall c <- client[..Find(client, r.value)] | c in server
        ensures !Supported(c, config)
      {
        var j :| 0 <= j < Find(client, r.value) && client[j] == c;
        assert !Candidate(client, server, config, j);
      }
      FieldsOfUnsupported(client[..Find(client, r.value)], server, config);
    } else {
      forall c <- server | c in client
        ensures !Supported(c, config)
      {
        var j :| 0 <= j < |client| && client[j] == c;
        NoneIsNone(client, server, config, j);
      }
      FieldsOfUnsupported(server, client, config);
    }
  }

  lemma FirstIsChoice(client: seq<Cipher>, server: seq<Cipher>, config: Config, r: Option<Cipher>)
    requires IsChoice(client, None, server, config, r)
    ensures forall c :: r == Some(c) <==>
              exists w: nat :: w < |client| && client[w] == c && Supported(c, config) && c in server
                && forall j: nat | j < w :: !(Supported(client[j], config) && client[j] in server)
  {
    forall w: nat
      ensures Best(client, None, server, config, w) <==>
              w < |client| && Supported(client[w], config) && client[w] in server
              && forall j: nat | j < w :: !(Supported(client[j], config) && client[j] in server)
      ensures w < |client| ==> Closed(None, |client|, w)
    {
      FirstIsBest(client, server, config, w);
      assert forall j: nat | j < w && w < |client| :: Candidate(client, server, config, j) <==> Supported(client[j], config) && client[j] in server;
    }
    if r.Some? {
      var v: nat :| v < |client| && Best(client, None, server, config, v) && client[v] == r.value;
      forall w: nat | Best(client, None, server, config, w)
        ensures client[w] == r.value
      {
        BestIsOne(client, None, server, config, v, w);
      }
    }
  }
}
