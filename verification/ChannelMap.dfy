/** The ASIO wrapper's map from virtual channels to endpoint channels and its buffers (wrapper.cpp). */
module ChannelMap {
  import Config
  import opened Json
  import opened Types

  type Endpoints = es: seq<Config.EndpointConfig> | forall i :: 0 <= i < |es| ==> es[i].channelCount >= 0

  datatype VirtualChannel = VirtualChannel(endpoint: nat, channel: nat)

  /** The two swap buffers of a channel; zero is the null pointer. */
  datatype Buffers = Buffers(first: nat, second: nat)

  datatype BufferInfo = BufferInfo(isInput: bool, index: int, buffers: Buffers)

  const NO_BUFFERS := Buffers(0, 0)

  // ---------------------------------------------------------------------------------
  // Virtual channels
  // ---------------------------------------------------------------------------------

  /** Channels of the endpoints of one type, in order. */
  function ChannelsBefore(es: Endpoints, typ: Config.EndpointType, e: nat): nat
    requires e <= |es|
  {
    if e == 0 then 0 else ChannelsBefore(es, typ, e - 1) + if es[e - 1].typ == typ then es[e - 1].channelCount else 0
  }

  lemma {:induction false} ChannelsGrow(es: Endpoints, typ: Config.EndpointType, d: nat, e: nat)
    requires d <= e <= |es|
    ensures ChannelsBefore(es, typ, d) <= ChannelsBefore(es, typ, e)
  {
    if d < e {
      ChannelsGrow(es, typ, d, e - 1);
    }
  }

  /** The virtual channel `k` of a list of endpoints stands for channel `c` of endpoint `e`. */
  ghost predicate StandsFor(es: Endpoints, typ: Config.EndpointType, k: nat, ch: VirtualChannel) {
    && ch.endpoint < |es| && es[ch.endpoint].typ == typ && ch.channel < es[ch.endpoint].channelCount
    && k == ChannelsBefore(es, typ, ch.endpoint) + ch.channel
  }

  /** The list for one type: every place stands for its channel, and every channel has its place. */
  ghost predicate IsMap(es: Endpoints, typ: Config.EndpointType, channels: seq<VirtualChannel>) {
    && |channels| == ChannelsBefore(es, typ, |es|)
    && forall k :: 0 <= k < |channels| ==> StandsFor(es, typ, k, channels[k])
  }

  /** A place of the list determines its channel and a channel its place. */
  lemma {:induction false} StandsForOne(es: Endpoints, typ: Config.EndpointType, k: nat, a: VirtualChannel,
                                        b: VirtualChannel)
    requires StandsFor(es, typ, k, a) && StandsFor(es, typ, k, b)
    ensures a == b
  {
    if a.endpoint < b.endpoint {
      ChannelsGrow(es, typ, a.endpoint + 1, b.endpoint);
    } else if b.endpoint < a.endpoint {
      ChannelsGrow(es, typ, b.endpoint + 1, a.endpoint);
    }
  }

  /** Place k of the list holds channel c of endpoint e exactly when the endpoint has the type and the channel, and k is
      c plus the channels of the earlier endpoints of that type. */
  lemma PlaceOfChannel(es: Endpoints, typ: Config.EndpointType, channels: seq<VirtualChannel>, ch: VirtualChannel)
    requires IsMap(es, typ, channels)
    ensures forall k :: 0 <= k < |channels| ==> (channels[k] == ch <==> StandsFor(es, typ, k, ch))
    ensures ch.endpoint < |es| && es[ch.endpoint].typ == typ && ch.channel < es[ch.endpoint].channelCount ==>
              ChannelsBefore(es, typ, ch.endpoint) + ch.channel < |channels|
  {
    forall k | 0 <= k < |channels| && StandsFor(es, typ, k, ch)
      ensures channels[k] == ch
    {
      StandsForOne(es, typ, k, channels[k], ch);
    }
    if ch.endpoint < |es| {
      ChannelsGrow(es, typ, ch.endpoint + 1, |es|);
    }
  }

  // ---------------------------------------------------------------------------------
  // Sorting requests apart
  // ---------------------------------------------------------------------------------

  /** Channel counts of the hardware driver. */
  datatype Hardware = Hardware(inputs: nat, outputs: nat) {
    function Count(isInput: bool): nat {
      if isInput then inputs else outputs
    }

    predicate Owns(info: BufferInfo) {
      info.index < Count(info.isInput)
    }
  }

  /** Places of the requests that go to the hardware (or that do not). */
  function Places(hw: Hardware, infos: seq<BufferInfo>, physical: bool): (ps: seq<nat>)
    ensures forall j :: 0 <= j < |ps| ==> ps[j] < |infos|
  {
    if infos == [] then []
    else
      Places(hw, infos[..|infos| - 1], physical) +
      if hw.Owns(infos[|infos| - 1]) == physical then [|infos| - 1] else []
  }

  /** The requests that the hardware gets. */
  function Physical(hw: Hardware, infos: seq<BufferInfo>): seq<BufferInfo> {
    At(infos, Places(hw, infos, true))
  }

  function At(infos: seq<BufferInfo>, places: seq<nat>): (r: seq<BufferInfo>)
    requires forall j :: 0 <= j < |places| ==> places[j] < |infos|
    ensures |r| == |places|
  {
    seq(|places|, j requires 0 <= j < |places| => infos[places[j]])
  }

  /** The places are in order, and are all those of the requests of that kind. */
  lemma {:induction false} PlacesAre(hw: Hardware, infos: seq<BufferInfo>, physical: bool)
    ensures Increasing(Places(hw, infos, physical))
    ensures forall k :: 0 <= k < |infos| ==> (k in Places(hw, infos, physical) <==> hw.Owns(infos[k]) == physical)
  {
    if infos != [] {
      var n := |infos| - 1;
      PlacesAre(hw, infos[..n], physical);
      var before := Places(hw, infos[..n], physical);
      assert n !in before;
      assert Places(hw, infos, physical) == before + if hw.Owns(infos[n]) == physical then [n] else [];
    }
  }

  /** The virtual channels for inputs and for outputs. */
  datatype Lists = Lists(inputs: seq<VirtualChannel>, outputs: seq<VirtualChannel>) {
    function Of(isInput: bool): seq<VirtualChannel> {
      if isInput then inputs else outputs
    }

    ghost predicate Maps(es: Endpoints) {
      IsMap(es, Config.Playback, inputs) && IsMap(es, Config.Recording, outputs)
    }
  }

  /** A request asks for a channel that the hardware or the wrapper has. */
  predicate Exists(hw: Hardware, lists: Lists, info: BufferInfo) {
    info.index < hw.Count(info.isInput) + |lists.Of(info.isInput)|
  }

  predicate AllExist(hw: Hardware, lists: Lists, infos: seq<BufferInfo>) {
    forall i :: 0 <= i < |infos| ==> Exists(hw, lists, infos[i])
  }

  lemma EachExists(hw: Hardware, lists: Lists, infos: seq<BufferInfo>)
    ensures AllExist(hw, lists, infos) <==>
            forall i :: 0 <= i < |infos| ==>
              infos[i].index < if infos[i].isInput then hw.inputs + |lists.inputs| else hw.outputs + |lists.outputs|
  {
    forall i | 0 <= i < |infos|
      ensures Exists(hw, lists, infos[i]) <==>
              (infos[i].index < if infos[i].isInput then hw.inputs + |lists.inputs|
                                else hw.outputs + |lists.outputs|)
    {
    }
  }

  /** The channel that a request behind the hardware's stands for. */
  function Target(hw: Hardware, lists: Lists, info: BufferInfo): VirtualChannel
    requires !hw.Owns(info) && Exists(hw, lists, info)
  {
    lists.Of(info.isInput)[info.index - hw.Count(info.isInput)]
  }

  ghost predicate AreTargets(hw: Hardware, lists: Lists, infos: seq<BufferInfo>, places: seq<nat>,
                             targets: seq<VirtualChannel>) {
    && |targets| == |places|
    && forall j :: 0 <= j < |places| ==>
         places[j] < |infos| && !hw.Owns(infos[places[j]]) && Exists(hw, lists, infos[places[j]])
         && targets[j] == Target(hw, lists, infos[places[j]])
  }

  /** Different virtual channels have different slots, and every one has its slot. */
  lemma TargetsApart(es: Endpoints, hw: Hardware, lists: Lists, a: BufferInfo, b: BufferInfo)
    requires lists.Maps(es)
    requires !hw.Owns(a) && Exists(hw, lists, a) && !hw.Owns(b) && Exists(hw, lists, b)
    ensures Target(hw, lists, a) == Target(hw, lists, b) <==> a.isInput == b.isInput && a.index == b.index
    ensures Target(hw, lists, a).endpoint < |es| &&
            Target(hw, lists, a).channel < es[Target(hw, lists, a).endpoint].channelCount
  {
    assert StandsFor(es, if a.isInput then Config.Playback else Config.Recording, a.index - hw.Count(a.isInput),
                     Target(hw, lists, a));
    assert StandsFor(es, if b.isInput then Config.Playback else Config.Recording, b.index - hw.Count(b.isInput),
                     Target(hw, lists, b));
  }

  /** Requests with an index below the hardware's count of channels go to the hardware, the next ones are for the
      virtual channels in their order, input for playback endpoints and output for recording endpoints, and there are
      no others: every channel of every endpoint is reached by the one index that the counts say. */
  lemma IndexReaches(es: Endpoints, hw: Hardware, lists: Lists, info: BufferInfo, ch: VirtualChannel)
    requires lists.Maps(es)
    ensures hw.Owns(info) <==> info.index < (if info.isInput then hw.inputs else hw.outputs)
    ensures var typ := if info.isInput then Config.Playback else Config.Recording;
            var before := if info.isInput then hw.inputs else hw.outputs;
            && (Exists(hw, lists, info) <==> info.index < before + ChannelsBefore(es, typ, |es|))
            && ((!hw.Owns(info) && Exists(hw, lists, info) && Target(hw, lists, info) == ch) <==>
                (ch.endpoint < |es| && es[ch.endpoint].typ == typ && ch.channel < es[ch.endpoint].channelCount
                 && info.index == before + ChannelsBefore(es, typ, ch.endpoint) + ch.channel))
  {
    var typ := if info.isInput then Config.Playback else Config.Recording;
    PlaceOfChannel(es, typ, lists.Of(info.isInput), ch);
  }

  // ---------------------------------------------------------------------------------
  // Filling slots
  // ---------------------------------------------------------------------------------

  type Slots = seq<seq<Buffers>>

  predicate HasSlot(slots: Slots, ch: VirtualChannel) {
    ch.endpoint < |slots| && ch.channel < |slots[ch.endpoint]|
  }

  function SetSlot(slots: Slots, ch: VirtualChannel, buffers: Buffers): (r: Slots)
    requires HasSlot(slots, ch)
    ensures |r| == |slots| && forall e :: 0 <= e < |r| ==> |r[e]| == |slots[e]|
    ensures forall other :: HasSlot(slots, other) ==>
              r[other.endpoint][other.channel] == if other == ch then buffers else slots[other.endpoint][other.channel]
  {
    slots[ch.endpoint := slots[ch.endpoint][ch.channel := buffers]]
  }

  function BuffersOf(block: nat, j: nat): Buffers {
    Buffers(block + 2 * j, block + 2 * j + 1)
  }

  /** Request j gets blocks 2j and 2j + 1 and stores them in the slot of its channel. */
  function Filled(slots: Slots, targets: seq<VirtualChannel>, block: nat): (r: Slots)
    requires forall j :: 0 <= j < |targets| ==> HasSlot(slots, targets[j])
    ensures |r| == |slots| && forall e :: 0 <= e < |r| ==> |r[e]| == |slots[e]|
  {
    if targets == [] then slots
    else
      var n := |targets| - 1;
      assert HasSlot(slots, targets[n]);
      SetSlot(Filled(slots, targets[..n], block), targets[n], BuffersOf(block, n))
  }

  lemma FilledNext(slots: Slots, targets: seq<VirtualChannel>, block: nat, i: nat, filled: Slots)
    requires i < |targets| && forall j :: 0 <= j < |targets| ==> HasSlot(slots, targets[j])
    requires filled == Filled(slots, targets[..i], block)
    ensures HasSlot(filled, targets[i])
  {
    assert HasSlot(slots, targets[i]);
  }

  lemma FilledOn(slots: Slots, targets: seq<VirtualChannel>, block: nat, i: nat, filled: Slots, next: Slots)
    requires i < |targets| && forall j :: 0 <= j < |targets| ==> HasSlot(slots, targets[j])
    requires filled == Filled(slots, targets[..i], block) && HasSlot(filled, targets[i])
    requires next == SetSlot(filled, targets[i], BuffersOf(block, i))
    ensures next == Filled(slots, targets[..i + 1], block)
  {
    assert targets[..i + 1][..i] == targets[..i];
  }

  /** A slot that nobody asked for is untouched. */
  lemma {:induction false} UnaskedSlot(slots: Slots, targets: seq<VirtualChannel>, block: nat, ch: VirtualChannel)
    requires HasSlot(slots, ch) && forall j :: 0 <= j < |targets| ==> HasSlot(slots, targets[j])
    requires ch !in targets
    ensures Filled(slots, targets, block)[ch.endpoint][ch.channel] == slots[ch.endpoint][ch.channel]
  {
    if targets != [] {
      var n := |targets| - 1;
      UnaskedSlot(slots, targets[..n], block, ch);
      assert HasSlot(Filled(slots, targets[..n], block), ch);
    }
  }

  /** A slot holds the buffers of the last request for its channel. */
  lemma {:induction false} AskedSlot(slots: Slots, targets: seq<VirtualChannel>, block: nat, j: nat)
    requires forall i :: 0 <= i < |targets| ==> HasSlot(slots, targets[i])
    requires j < |targets| && targets[j] !in targets[j + 1..]
    ensures HasSlot(slots, targets[j])
    ensures Filled(slots, targets, block)[targets[j].endpoint][targets[j].channel] == BuffersOf(block, j)
  {
    var n := |targets| - 1;
    var ch := targets[j];
    assert HasSlot(slots, ch) && HasSlot(Filled(slots, targets[..n], block), ch);
    if j < n {
      assert targets[j + 1..][n - j - 1] == targets[n];
      assert targets[j + 1..] == targets[..n][j + 1..] + [targets[n]];
      AskedSlot(slots, targets[..n], block, j);
    }
  }

  predicate Increasing(places: seq<nat>) {
    forall i, j :: 0 <= i < j < |places| ==> places[i] < places[j]
  }

  /** The requests at the given places with their buffers. */
  function Marked(infos: seq<BufferInfo>, places: seq<nat>, block: nat): (r: seq<BufferInfo>)
    requires forall j :: 0 <= j < |places| ==> places[j] < |infos|
    ensures |r| == |infos|
  {
    if places == [] then infos
    else
      var n := |places| - 1;
      var m := Marked(infos, places[..n], block);
      m[places[n] := m[places[n]].(buffers := BuffersOf(block, n))]
  }

  lemma {:induction false} MarkedAt(infos: seq<BufferInfo>, places: seq<nat>, block: nat)
    requires Increasing(places) && forall j :: 0 <= j < |places| ==> places[j] < |infos|
    ensures forall j :: 0 <= j < |places| ==>
            Marked(infos, places, block)[places[j]] == infos[places[j]].(buffers := BuffersOf(block, j))
    ensures forall i :: 0 <= i < |infos| && i !in places ==> Marked(infos, places, block)[i] == infos[i]
  {
    if places != [] {
      MarkedAt(infos, places[..|places| - 1], block);
    }
  }

  lemma MarkedNext(infos: seq<BufferInfo>, places: seq<nat>, block: nat, i: nat, marked: seq<BufferInfo>)
    requires Increasing(places) && i < |places| && forall j :: 0 <= j < |places| ==> places[j] < |infos|
    requires marked == Marked(infos, places[..i], block)
    ensures |marked| == |infos| && marked[places[i]] == infos[places[i]]
  {
    MarkedAt(infos, places[..i], block);
  }

  lemma MarkedOn(infos: seq<BufferInfo>, places: seq<nat>, block: nat, i: nat, marked: seq<BufferInfo>,
                 next: seq<BufferInfo>)
    requires i < |places| && forall j :: 0 <= j < |places| ==> places[j] < |infos|
    requires marked == Marked(infos, places[..i], block)
    requires next == marked[places[i] := marked[places[i]].(buffers := BuffersOf(block, i))]
    ensures next == Marked(infos, places[..i + 1], block)
  {
    assert places[..i + 1][..i] == places[..i];
  }

  function Resized<T>(s: seq<T>, n: nat, fill: T): (r: seq<T>)
    ensures |r| == n && forall i :: 0 <= i < n ==> r[i] == if i < |s| then s[i] else fill
  {
    if n <= |s| then s[..n] else s + seq(n - |s|, _ => fill)
  }

  /** What was there stays, what is new is null. */
  function ResizedSlots(slots: Slots, es: Endpoints): (r: Slots)
    ensures |r| == |es| && forall e :: 0 <= e < |es| ==> |r[e]| == es[e].channelCount
    ensures forall e, c :: 0 <= e < |r| && 0 <= c < |r[e]| ==>
              r[e][c] == if e < |slots| && c < |slots[e]| then slots[e][c] else Buffers(0, 0)
  {
    seq(|es|, e requires 0 <= e < |es| => Resized(Resized(slots, |es|, [])[e], es[e].channelCount, NO_BUFFERS))
  }

  // ---------------------------------------------------------------------------------
  // The wrapper
  // ---------------------------------------------------------------------------------

  datatype Status = OK | NotPresent | InnerFailed

  /** The channels of the requests behind the hardware's, and that they have slots. */
  lemma Aim(es: Endpoints, hw: Hardware, lists: Lists, infos: seq<BufferInfo>, slots: Slots, places: seq<nat>)
    returns (targets: seq<VirtualChannel>)
    requires lists.Maps(es) && AllExist(hw, lists, infos) && places == Places(hw, infos, false)
    requires |slots| == |es| && forall e :: 0 <= e < |slots| ==> |slots[e]| == es[e].channelCount
    ensures AreTargets(hw, lists, infos, places, targets)
    ensures forall j :: 0 <= j < |targets| ==> HasSlot(slots, targets[j])
  {
    PlacesAre(hw, infos, false);
    targets := seq(|places|, j requires 0 <= j < |places| => Target(hw, lists, infos[places[j]]));
    forall j | 0 <= j < |targets|
      ensures HasSlot(slots, targets[j])
    {
      TargetsApart(es, hw, lists, infos[places[j]], infos[places[j]]);
    }
  }

  /** What createBuffers leaves behind when it succeeds: the hardware's answers are back in their places `ps`, the
      others, at `vs`, got blocks of their own, and those are in the slots of their channels. */
  ghost predicate CreatedAt(hw: Hardware, lists: Lists, ps: seq<nat>, vs: seq<nat>, before: seq<BufferInfo>,
                            filled: seq<BufferInfo>, after: seq<BufferInfo>, empty: Slots, slots: Slots, block: nat) {
    && |after| == |before| && |filled| == |ps|
    && (forall j :: 0 <= j < |ps| ==> ps[j] < |after| && after[ps[j]] == filled[j])
    && (forall j :: 0 <= j < |vs| ==> vs[j] < |after| && after[vs[j]] == before[vs[j]].(buffers := BuffersOf(block, j)))
    && exists targets :: AreTargets(hw, lists, before, vs, targets)
                         && (forall j :: 0 <= j < |targets| ==> HasSlot(empty, targets[j]))
                         && slots == Filled(empty, targets, block)
  }

  ghost predicate Created(hw: Hardware, lists: Lists, before: seq<BufferInfo>, filled: seq<BufferInfo>,
                          after: seq<BufferInfo>, empty: Slots, slots: Slots, block: nat) {
    CreatedAt(hw, lists, Places(hw, before, true), Places(hw, before, false), before, filled, after, empty, slots,
              block)
  }

  /** Place of a request among those of its kind. */
  lemma PlaceOf(hw: Hardware, infos: seq<BufferInfo>, i: nat) returns (j: nat)
    requires i < |infos|
    ensures j < |Places(hw, infos, hw.Owns(infos[i]))| && Places(hw, infos, hw.Owns(infos[i]))[j] == i
  {
    PlacesAre(hw, infos, hw.Owns(infos[i]));
    j :| 0 <= j < |Places(hw, infos, hw.Owns(infos[i]))| && Places(hw, infos, hw.Owns(infos[i]))[j] == i;
  }

  predicate SameRequest(a: BufferInfo, b: BufferInfo) {
    a.isInput == b.isInput && a.index == b.index
  }

  /** The buffers that a request for a virtual channel gets are those in the slot of that channel, unless a later
      request asks for the same channel again. */
  lemma RequestedIsSlot(es: Endpoints, hw: Hardware, lists: Lists, before: seq<BufferInfo>, filled: seq<BufferInfo>,
                        after: seq<BufferInfo>, empty: Slots, slots: Slots, block: nat, i: nat)
    requires lists.Maps(es) && AllExist(hw, lists, before)
    requires Created(hw, lists, before, filled, after, empty, slots, block)
    requires i < |before| && !hw.Owns(before[i])
    requires forall k :: i < k < |before| ==> !SameRequest(before[k], before[i])
    ensures i < |after| && SameRequest(after[i], before[i])
    ensures var ch := Target(hw, lists, before[i]);
            HasSlot(slots, ch) && slots[ch.endpoint][ch.channel] == after[i].buffers
  {
    var vs := Places(hw, before, false);
    var targets :| AreTargets(hw, lists, before, vs, targets)
                   && (forall j :: 0 <= j < |targets| ==> HasSlot(empty, targets[j]))
                   && slots == Filled(empty, targets, block);
    var j := PlaceOf(hw, before, i);
    LaterTargets(es, hw, lists, before, vs, targets, j);
    AskedSlot(empty, targets, block, j);
  }

  /** The slot of a channel that no request is for is what it was. */
  lemma OtherSlotKept(hw: Hardware, lists: Lists, before: seq<BufferInfo>, filled: seq<BufferInfo>,
                      after: seq<BufferInfo>, empty: Slots, slots: Slots, block: nat, ch: VirtualChannel)
    requires Created(hw, lists, before, filled, after, empty, slots, block) && HasSlot(empty, ch)
    requires forall i :: 0 <= i < |before| && !hw.Owns(before[i]) && Exists(hw, lists, before[i]) ==>
               Target(hw, lists, before[i]) != ch
    ensures HasSlot(slots, ch) && slots[ch.endpoint][ch.channel] == empty[ch.endpoint][ch.channel]
  {
    var vs := Places(hw, before, false);
    var targets :| AreTargets(hw, lists, before, vs, targets)
                   && (forall j :: 0 <= j < |targets| ==> HasSlot(empty, targets[j]))
                   && slots == Filled(empty, targets, block);
    assert forall j :: 0 <= j < |vs| ==> targets[j] == Target(hw, lists, before[vs[j]]);
    UnaskedSlot(empty, targets, block, ch);
  }

  lemma LaterTargets(es: Endpoints, hw: Hardware, lists: Lists, infos: seq<BufferInfo>, vs: seq<nat>,
                     targets: seq<VirtualChannel>, j: nat)
    requires lists.Maps(es) && vs == Places(hw, infos, false) && AreTargets(hw, lists, infos, vs, targets) && j < |vs|
    requires forall k :: vs[j] < k < |infos| ==> !SameRequest(infos[k], infos[vs[j]])
    ensures targets[j] !in targets[j + 1..]
  {
    PlacesAre(hw, infos, false);
    forall k | j < k < |targets|
      ensures targets[k] != targets[j]
    {
      TargetsApart(es, hw, lists, infos[vs[k]], infos[vs[j]]);
    }
  }

  /** No two requests for virtual channels share a block, and none gets a null pointer. */
  lemma BlocksApart(hw: Hardware, lists: Lists, before: seq<BufferInfo>, filled: seq<BufferInfo>,
                    after: seq<BufferInfo>, empty: Slots, slots: Slots, block: nat, i: nat, k: nat)
    requires Created(hw, lists, before, filled, after, empty, slots, block) && block > 0
    requires i < |before| && k < |before| && i != k && !hw.Owns(before[i]) && !hw.Owns(before[k])
    ensures |after| == |before|
    ensures after[i].buffers.first != 0 && after[i].buffers.second != 0 &&
            after[i].buffers.first != after[i].buffers.second
    ensures {after[i].buffers.first, after[i].buffers.second} !! {after[k].buffers.first, after[k].buffers.second}
  {
    var j := BlocksOf(hw, lists, before, filled, after, empty, slots, block, i);
    var l := BlocksOf(hw, lists, before, filled, after, empty, slots, block, k);
    BuffersApart(block, j, l);
  }

  lemma BlocksOf(hw: Hardware, lists: Lists, before: seq<BufferInfo>, filled: seq<BufferInfo>,
                 after: seq<BufferInfo>, empty: Slots, slots: Slots, block: nat, i: nat) returns (j: nat)
    requires Created(hw, lists, before, filled, after, empty, slots, block) && i < |before| && !hw.Owns(before[i])
    ensures |after| == |before| && after[i].buffers == BuffersOf(block, j)
    ensures j < |Places(hw, before, false)| && Places(hw, before, false)[j] == i
  {
    j := PlaceOf(hw, before, i);
  }

  lemma BuffersApart(block: nat, j: nat, l: nat)
    requires j != l
    ensures {BuffersOf(block, j).first, BuffersOf(block, j).second} !!
            {BuffersOf(block, l).first, BuffersOf(block, l).second}
  {
  }

  /** A request for the hardware gets the hardware's answer to that very request. */
  lemma HardwareAnswers(hw: Hardware, lists: Lists, before: seq<BufferInfo>, filled: seq<BufferInfo>,
                        after: seq<BufferInfo>, empty: Slots, slots: Slots, block: nat, i: nat) returns (j: nat)
    requires Created(hw, lists, before, filled, after, empty, slots, block)
    requires i < |before| && hw.Owns(before[i])
    ensures j < |filled| == |Physical(hw, before)| && Physical(hw, before)[j] == before[i]
    ensures i < |after| && after[i] == filled[j]
  {
    j := PlaceOf(hw, before, i);
  }

  ghost predicate Apart(ps: seq<nat>, vs: seq<nat>) {
    Increasing(ps) && Increasing(vs) && forall k :: k in ps ==> k !in vs
  }

  lemma PlacesApart(hw: Hardware, infos: seq<BufferInfo>)
    ensures Apart(Places(hw, infos, true), Places(hw, infos, false))
  {
    PlacesAre(hw, infos, true);
    PlacesAre(hw, infos, false);
  }

  lemma MarkedApart(infos: seq<BufferInfo>, put: seq<BufferInfo>, ps: seq<nat>, vs: seq<nat>, filled: seq<BufferInfo>,
                    block: nat)
    requires Apart(ps, vs) && |put| == |infos| && |filled| == |ps|
    requires forall j :: 0 <= j < |ps| ==> ps[j] < |put| && put[ps[j]] == filled[j]
    requires forall j :: 0 <= j < |vs| ==> vs[j] < |put|
    requires forall i :: 0 <= i < |put| && i !in ps ==> put[i] == infos[i]
    ensures forall j :: 0 <= j < |ps| ==> Marked(put, vs, block)[ps[j]] == filled[j]
    ensures forall j :: 0 <= j < |vs| ==> Marked(put, vs, block)[vs[j]] == infos[vs[j]].(buffers := BuffersOf(block, j))
  {
    MarkedAt(put, vs, block);
    forall j | 0 <= j < |ps|
      ensures Marked(put, vs, block)[ps[j]] == filled[j]
    {
      assert ps[j] in ps;
    }
    forall j | 0 <= j < |vs|
      ensures Marked(put, vs, block)[vs[j]] == infos[vs[j]].(buffers := BuffersOf(block, j))
    {
      assert vs[j] in vs;
    }
  }

  class Wrapper {
    var endpoints: Endpoints
    var lists: Lists
    var slots: Slots
    var nextBlock: nat

    ghost predicate Valid()
      reads this
    {
      lists.Maps(endpoints) && nextBlock > 0
    }

    constructor (es: Endpoints)
      ensures Valid() && endpoints == es && slots == []
    {
      endpoints, slots, nextBlock := es, [], 1;
      lists := Lists([], []);
      new;
      InitVirtualChannels();
    }

    /** initVirtualChannels. */
    method InitVirtualChannels()
      requires nextBlock > 0
      modifies `lists
      ensures Valid()
    {
      lists := Lists([], []);
      for e := 0 to |endpoints|
        invariant |lists.inputs| == ChannelsBefore(endpoints, Config.Playback, e)
        invariant |lists.outputs| == ChannelsBefore(endpoints, Config.Recording, e)
        invariant forall k :: 0 <= k < |lists.inputs| ==> StandsFor(endpoints, Config.Playback, k, lists.inputs[k])
        invariant forall k :: 0 <= k < |lists.outputs| ==> StandsFor(endpoints, Config.Recording, k, lists.outputs[k])
      {
        ghost var inputs, outputs := |lists.inputs|, |lists.outputs|;
        for i := 0 to endpoints[e].channelCount
          invariant |lists.inputs| == inputs + if endpoints[e].typ.Playback? then i else 0
          invariant |lists.outputs| == outputs + if endpoints[e].typ.Recording? then i else 0
          invariant forall k :: 0 <= k < |lists.inputs| ==> StandsFor(endpoints, Config.Playback, k, lists.inputs[k])
          invariant forall k :: 0 <= k < |lists.outputs| ==> StandsFor(endpoints, Config.Recording, k, lists.outputs[k])
        {
          var chan := VirtualChannel(e, i);
          if endpoints[e].typ.Recording? {
            lists := lists.(outputs := lists.outputs + [chan]);
          } else {
            lists := lists.(inputs := lists.inputs + [chan]);
          }
        }
      }
    }

    /** The first loop of createBuffers: the requests are sorted apart, and one out of range ends the call. */
    method SortApart(hw: Hardware, infos: array<BufferInfo>)
      returns (ok: bool, physical: seq<BufferInfo>, physicalIndices: seq<nat>, virtualIndices: seq<nat>)
      ensures ok <==> AllExist(hw, lists, infos[..])
      ensures ok <==> forall i :: 0 <= i < infos.Length ==>
                        infos[i].index < if infos[i].isInput then hw.inputs + |lists.inputs|
                                         else hw.outputs + |lists.outputs|
      ensures ok ==> Increasing(physicalIndices) && Increasing(virtualIndices)
      ensures ok ==> forall i :: 0 <= i < infos.Length ==>
                       && (i in physicalIndices <==>
                           infos[i].index < if infos[i].isInput then hw.inputs else hw.outputs)
                       && (i in virtualIndices <==> i !in physicalIndices)
      ensures ok ==> physicalIndices == Places(hw, infos[..], true) && virtualIndices == Places(hw, infos[..], false)
      ensures forall j :: 0 <= j < |physicalIndices| ==> physicalIndices[j] < infos.Length
      ensures physical == At(infos[..], physicalIndices)
    {
      physical, physicalIndices, virtualIndices := [], [], [];
      for i := 0 to infos.Length
        invariant AllExist(hw, lists, infos[..i])
        invariant physicalIndices == Places(hw, infos[..i], true) && virtualIndices == Places(hw, infos[..i], false)
        invariant forall j :: 0 <= j < |physicalIndices| ==> physicalIndices[j] < i
        invariant physical == At(infos[..], physicalIndices)
      {
        assert infos[..i + 1][..i] == infos[..i];
        var count := hw.Count(infos[i].isInput);
        var channels := lists.Of(infos[i].isInput);
        if infos[i].index >= count {
          if infos[i].index >= count + |channels| {
            assert !Exists(hw, lists, infos[..][i]);
            EachExists(hw, lists, infos[..]);
            return false, [], [], [];
          }
          virtualIndices := virtualIndices + [i];
        } else {
          physical := physical + [infos[i]];
          physicalIndices := physicalIndices + [i];
        }
      }
      assert infos[..infos.Length] == infos[..];
      PlacesAre(hw, infos[..], true);
      PlacesAre(hw, infos[..], false);
      EachExists(hw, lists, infos[..]);
      ok := true;
    }

    /** The loop that puts the hardware's answers back. */
    method PutBack(infos: array<BufferInfo>, indices: seq<nat>, filled: seq<BufferInfo>)
      requires |filled| == |indices| && forall j :: 0 <= j < |indices| ==> indices[j] < infos.Length
      requires Increasing(indices)
      modifies infos
      ensures forall j :: 0 <= j < |indices| ==> infos[indices[j]] == filled[j]
      ensures forall i :: 0 <= i < infos.Length && i !in indices ==> infos[i] == old(infos[i])
    {
      for i := 0 to |filled|
        invariant forall j :: 0 <= j < i ==> infos[indices[j]] == filled[j]
        invariant forall k :: 0 <= k < infos.Length && k !in indices ==> infos[k] == old(infos[k])
      {
        infos[indices[i]] := filled[i];
      }
    }

    /** One turn of that loop. */
    method AllocateOne(hw: Hardware, infos: array<BufferInfo>, i: nat)
      requires i < infos.Length && !hw.Owns(infos[i]) && Exists(hw, lists, infos[i])
      requires HasSlot(slots, Target(hw, lists, infos[i]))
      modifies infos, `slots, `nextBlock
      ensures nextBlock == old(nextBlock) + 2
      ensures infos[..] == old(infos[..])[i := old(infos[i]).(buffers := Buffers(old(nextBlock), old(nextBlock) + 1))]
      ensures slots == SetSlot(old(slots), Target(hw, lists, old(infos[i])),
                               Buffers(old(nextBlock), old(nextBlock) + 1))
    {
      var channel := lists.Of(infos[i].isInput)[infos[i].index - hw.Count(infos[i].isInput)];
      infos[i] := infos[i].(buffers := Buffers(nextBlock, nextBlock + 1));
      slots := SetSlot(slots, channel, infos[i].buffers);
      nextBlock := nextBlock + 2;
    }

    /** The first `i` requests behind the hardware's have their blocks. */
    ghost predicate Progress(infos: array<BufferInfo>, before: seq<BufferInfo>, indices: seq<nat>,
                             targets: seq<VirtualChannel>, empty: Slots, block: nat, i: nat)
      reads this, infos
    {
      && i <= |indices| == |targets| && nextBlock == block + 2 * i
      && (forall j :: 0 <= j < |indices| ==> indices[j] < |before|)
      && (forall j :: 0 <= j < |targets| ==> HasSlot(empty, targets[j]))
      && infos[..] == Marked(before, indices[..i], block)
      && slots == Filled(empty, targets[..i], block)
    }

    method AllocateNext(hw: Hardware, infos: array<BufferInfo>, ghost before: seq<BufferInfo>, indices: seq<nat>,
                        ghost targets: seq<VirtualChannel>, ghost empty: Slots, ghost block: nat, i: nat)
      requires AreTargets(hw, lists, before, indices, targets) && Increasing(indices) && i < |indices|
      requires Progress(infos, before, indices, targets, empty, block, i)
      modifies infos, `slots, `nextBlock
      ensures Progress(infos, before, indices, targets, empty, block, i + 1)
    {
      ghost var slots0, infos0 := slots, infos[..];
      FilledNext(empty, targets, block, i, slots0);
      MarkedNext(before, indices, block, i, infos0);
      assert infos[indices[i]] == infos0[indices[i]];
      AllocateOne(hw, infos, indices[i]);
      FilledOn(empty, targets, block, i, slots0, slots);
      MarkedOn(before, indices, block, i, infos0, infos[..]);
    }

    /** The loop that allocates for the virtual channels. */
    method Allocate(hw: Hardware, infos: array<BufferInfo>, indices: seq<nat>, ghost targets: seq<VirtualChannel>)
      requires AreTargets(hw, lists, infos[..], indices, targets) && Increasing(indices)
      requires forall j :: 0 <= j < |targets| ==> HasSlot(slots, targets[j])
      modifies infos, `slots, `nextBlock
      ensures nextBlock == old(nextBlock) + 2 * |indices|
      ensures infos[..] == Marked(old(infos[..]), indices, old(nextBlock))
      ensures slots == Filled(old(slots), targets, old(nextBlock))
    {
      for i := 0 to |indices|
        invariant Progress(infos, old(infos[..]), indices, targets, old(slots), old(nextBlock), i)
      {
        AllocateNext(hw, infos, old(infos[..]), indices, targets, old(slots), old(nextBlock), i);
      }
      assert targets[..|indices|] == targets && indices[..|indices|] == indices;
    }

    /** The second half of createBuffers, once the hardware has answered. */
    method Assign(hw: Hardware, infos: array<BufferInfo>, ps: seq<nat>, vs: seq<nat>, filled: seq<BufferInfo>,
                  ghost targets: seq<VirtualChannel>)
      requires Apart(ps, vs) && |filled| == |ps| && forall j :: 0 <= j < |ps| ==> ps[j] < infos.Length
      requires AreTargets(hw, lists, infos[..], vs, targets)
      requires forall j :: 0 <= j < |targets| ==> HasSlot(ResizedSlots(slots, endpoints), targets[j])
      modifies infos, `slots, `nextBlock
      ensures nextBlock >= old(nextBlock)
      ensures CreatedAt(hw, lists, ps, vs, old(infos[..]), filled, infos[..], ResizedSlots(old(slots), endpoints),
                        slots, old(nextBlock))
    {
      ghost var before := infos[..];
      PutBack(infos, ps, filled);
      slots := ResizedSlots(slots, endpoints);
      ghost var put := infos[..];
      forall j | 0 <= j < |vs|
        ensures put[vs[j]] == before[vs[j]]
      {
        assert vs[j] in vs;
      }
      Allocate(hw, infos, vs, targets);
      MarkedApart(before, put, ps, vs, filled, old(nextBlock));
    }

    /** createBuffers with a hardware driver: `inner` is what that driver makes of the requests it is given. */
    method CreateBuffers(hw: Hardware, infos: array<BufferInfo>, inner: seq<BufferInfo> -> Option<seq<BufferInfo>>)
      returns (status: Status)
      requires Valid()
      requires forall s :: inner(s).Some? ==> |inner(s).value| == |s|
      modifies infos, `slots, `nextBlock
      ensures Valid()
      ensures status == NotPresent <==> !AllExist(hw, lists, old(infos[..]))
      ensures status == InnerFailed ==> inner(Physical(hw, old(infos[..]))).None?
      ensures status != OK ==> infos[..] == old(infos[..]) && slots == old(slots) && nextBlock == old(nextBlock)
      ensures status == OK ==> (inner(Physical(hw, old(infos[..]))).Some?
                                && Created(hw, lists, old(infos[..]), inner(Physical(hw, old(infos[..]))).value,
                                           infos[..], ResizedSlots(old(slots), endpoints), slots, old(nextBlock)))
    {
      var ok, physical, physicalIndices, virtualIndices := SortApart(hw, infos);
      if !ok {
        return NotPresent;
      }
      var answer := inner(physical);
      if answer.None? {
        return InnerFailed;
      }
      PlacesApart(hw, infos[..]);
      ghost var targets := Aim(endpoints, hw, lists, infos[..], ResizedSlots(slots, endpoints), virtualIndices);
      Assign(hw, infos, physicalIndices, virtualIndices, answer.value, targets);
      return OK;
    }
  }
}
