/** FUHandGestureDetector of FUKinectTool.cs: the two swipe detectors (a start
    time and an "armed" flag per hand), and the grip and press reports built
    from the users of an interaction frame, the grip report remembering the
    last grip event of every user and side. */
module Gestures {
  import opened KinectTypes

  // ---------------------------------------------------------------- swipes

  const SwipeMinimalDuration := 100
  const SwipeMaximalDuration := 1000

  /** SwipeLeft follows the right hand moving to the left; SwipeRight the left
      hand moving to the right. */
  datatype SwipeDirection = SwipeLeft | SwipeRight

  /** The state of one swipe detector: the start time in milliseconds (None
      stands for the DateTime.Today sentinel) and the _isOnRight/_isOnLeft flag. */
  datatype SwipeState = SwipeState(start: Option<int>, armed: bool)

  const Idle := SwipeState(None, false)

  datatype SwipeOutcome = SwipeOutcome(state: SwipeState, detected: bool)

  function SwipeHand(d: SwipeDirection): JointType {
    if d == SwipeLeft then HandRight else HandLeft
  }

  function SwipeElbow(d: SwipeDirection): JointType {
    if d == SwipeLeft then ElbowRight else ElbowLeft
  }

  function SwipeShoulder(d: SwipeDirection): JointType {
    if d == SwipeLeft then ShoulderRight else ShoulderLeft
  }

  /** The hand is below the elbow, above the head or below the hip centre. */
  predicate HandOutOfBand(d: SwipeDirection, sk: Skeleton) {
    var hand := sk.Joint(SwipeHand(d));
    hand.y < sk.Joint(SwipeElbow(d)).y || hand.y > sk.Joint(Head).y || hand.y < sk.Joint(HipCenter).y
  }

  /** The hand is on the outer side of its shoulder: the position that arms a swipe. */
  predicate HandOutside(d: SwipeDirection, sk: Skeleton) {
    var hand, shoulder := sk.Joint(SwipeHand(d)), sk.Joint(SwipeShoulder(d));
    if d == SwipeLeft then hand.x >= shoulder.x else hand.x <= shoulder.x
  }

  /** The hand is further from its shoulder than the shoulder is from the shoulder centre. */
  predicate HandTooFar(d: SwipeDirection, sk: Skeleton) {
    var hand, shoulder, centre := sk.Joint(SwipeHand(d)), sk.Joint(SwipeShoulder(d)), sk.Joint(ShoulderCenter);
    if d == SwipeLeft then hand.x - shoulder.x > shoulder.x - centre.x
    else hand.x - shoulder.x < shoulder.x - centre.x
  }

  /** The hand has crossed the shoulder centre: the position that completes a swipe. */
  predicate HandAcross(d: SwipeDirection, sk: Skeleton) {
    var hand, centre := sk.Joint(SwipeHand(d)), sk.Joint(ShoulderCenter);
    if d == SwipeLeft then hand.x <= centre.x else hand.x >= centre.x
  }

  /** One call of DetectSwipeLeftGesture or DetectSwipeRightGesture at time `now`. */
  function SwipeStep(d: SwipeDirection, st: SwipeState, skeleton: Option<Skeleton>, now: int): SwipeOutcome {
    if skeleton.None? then SwipeOutcome(st, false)
    else
      var sk := skeleton.value;
      if HandOutOfBand(d, sk) || (HandOutside(d, sk) && HandTooFar(d, sk)) then SwipeOutcome(Idle, false)
      else if !(st.armed || HandOutside(d, sk)) then SwipeOutcome(st, false)
      else
        var start := st.start.GetOr(now);
        var elapsed := now - start;
        if HandAcross(d, sk) && elapsed < SwipeMaximalDuration && elapsed > SwipeMinimalDuration then
          SwipeOutcome(Idle, true)
        else SwipeOutcome(SwipeState(Some(start), true), false)
  }

  /** A start time is kept exactly while the detector is armed. */
  predicate Consistent(st: SwipeState) {
    st.start.Some? <==> st.armed
  }

  /** Every failed guard resets the start time to the sentinel and disarms. */
  lemma SwipeGuardResets(d: SwipeDirection, st: SwipeState, sk: Skeleton, now: int)
    requires HandOutOfBand(d, sk) || (HandOutside(d, sk) && HandTooFar(d, sk))
    ensures SwipeStep(d, st, Some(sk), now) == SwipeOutcome(Idle, false)
  {
  }

  /** A swipe is reported exactly when the guards pass, the detector is (or
      becomes) armed, the hand has crossed the shoulder centre and the time
      since the start lies strictly between 100 and 1000 ms; a report resets
      the detector. */
  lemma SwipeDetection(d: SwipeDirection, st: SwipeState, skeleton: Option<Skeleton>, now: int)
    ensures var r := SwipeStep(d, st, skeleton, now);
      r.detected <==>
        skeleton.Some? && !HandOutOfBand(d, skeleton.value) &&
        !(HandOutside(d, skeleton.value) && HandTooFar(d, skeleton.value)) &&
        (st.armed || HandOutside(d, skeleton.value)) && HandAcross(d, skeleton.value) &&
        SwipeMinimalDuration < now - st.start.GetOr(now) < SwipeMaximalDuration
    ensures SwipeStep(d, st, skeleton, now).detected ==> SwipeStep(d, st, skeleton, now).state == Idle
  {
  }

  /** Each call keeps the start time and the flag in step. */
  lemma SwipeStepConsistent(d: SwipeDirection, st: SwipeState, skeleton: Option<Skeleton>, now: int)
    requires Consistent(st)
    ensures Consistent(SwipeStep(d, st, skeleton, now).state)
  {
  }

  /** One call of a swipe detector: the skeleton (or null) and the clock reading. */
  datatype SwipeInput = SwipeInput(skeleton: Option<Skeleton>, now: int)

  /** The state of a detector after a run of calls. */
  function SwipeRun(d: SwipeDirection, st: SwipeState, ins: seq<SwipeInput>): SwipeState {
    if ins == [] then st
    else
      var last := ins[|ins| - 1];
      SwipeStep(d, SwipeRun(d, st, ins[..|ins| - 1]), last.skeleton, last.now).state
  }

  lemma {:induction false} SwipeRunConsistent(d: SwipeDirection, ins: seq<SwipeInput>)
    ensures Consistent(SwipeRun(d, Idle, ins))
  {
    if ins != [] {
      var last := ins[|ins| - 1];
      SwipeRunConsistent(d, ins[..|ins| - 1]);
      SwipeStepConsistent(d, SwipeRun(d, Idle, ins[..|ins| - 1]), last.skeleton, last.now);
    }
  }

  /** The call at which the hand was on the outer side of its shoulder. */
  predicate ArmsAt(d: SwipeDirection, input: SwipeInput) {
    input.skeleton.Some? && HandOutside(d, input.skeleton.value)
  }

  /** A stored start time is the time of a call at which the hand was on the
      outer side of its shoulder. */
  lemma {:induction false} SwipeStartIsArmingTime(d: SwipeDirection, ins: seq<SwipeInput>)
    ensures var st := SwipeRun(d, Idle, ins);
      st.start.Some? ==> exists j :: 0 <= j < |ins| && ins[j].now == st.start.value && ArmsAt(d, ins[j])
  {
    if ins != [] {
      var prefix, last := ins[..|ins| - 1], ins[|ins| - 1];
      var prev := SwipeRun(d, Idle, prefix);
      SwipeRunConsistent(d, prefix);
      SwipeStartIsArmingTime(d, prefix);
      var st := SwipeRun(d, Idle, ins);
      if st.start.Some? {
        if prev.start.Some? {
          var j :| 0 <= j < |prefix| && prefix[j].now == prev.start.value && ArmsAt(d, prefix[j]);
          assert ins[j] == prefix[j];
        } else {
          assert ArmsAt(d, last) && st.start.value == last.now;
        }
      }
    }
  }

  /** A reported swipe needs an earlier call, between 100 and 1000 ms before,
      at which the hand was on the outer side of its shoulder. */
  lemma SwipeNeedsTimedSweep(d: SwipeDirection, ins: seq<SwipeInput>, k: nat)
    requires k < |ins|
    requires SwipeStep(d, SwipeRun(d, Idle, ins[..k]), ins[k].skeleton, ins[k].now).detected
    ensures exists j :: 0 <= j < k && ArmsAt(d, ins[j]) &&
                        SwipeMinimalDuration < ins[k].now - ins[j].now < SwipeMaximalDuration
  {
    var st := SwipeRun(d, Idle, ins[..k]);
    assert st.start.Some?;
    SwipeStartIsArmingTime(d, ins[..k]);
    var j :| 0 <= j < k && ins[..k][j].now == st.start.value && ArmsAt(d, ins[..k][j]);
    assert ins[j] == ins[..k][j];
  }

  // ------------------------------------------------------- grip and press

  /** InteractionHandType. */
  datatype HandType = NoHand | LeftHand | RightHand

  /** InteractionHandEventType. */
  datatype HandEventType = NoEvent | Grip | GripRelease

  datatype HandPointer = HandPointer(handType: HandType, handEventType: HandEventType, isPressed: bool)

  /** A user of an interaction frame: the skeleton tracking id (0 for no user)
      and the user's hand pointers. */
  datatype UserInfo = UserInfo(skeletonTrackingId: int, handPointers: seq<HandPointer>)

  /** The answer of DetectGripping and DetectPressing: null for a null frame,
      the ArgumentException that Dictionary.Add throws on a repeated key, or
      the dictionary. */
  datatype Reported<T> = NullFrame | DuplicateKey | Report(entries: T)

  /** A user the reports include: a tracking id, some hand pointers, and not
      exactly two pointers that both have no hand type. */
  predicate Reportable(u: UserInfo) {
    var hp := u.handPointers;
    u.skeletonTrackingId != 0 && |hp| != 0 &&
    !(|hp| == 2 && hp[0].handType == NoHand && hp[1].handType == NoHand)
  }

  /** Two pointers of the list share a hand type. */
  predicate HasRepeatedHandType(hs: seq<HandPointer>) {
    exists i, j :: 0 <= i < j < |hs| && hs[i].handType == hs[j].handType
  }

  /** _lastLeftHandEvents and _lastRightHandEvents. */
  datatype GripMemory = GripMemory(left: map<int, HandEventType>, right: map<int, HandEventType>)

  /** The stored event of a user, or None when nothing is stored. */
  function Recall(m: map<int, HandEventType>, id: int): HandEventType {
    if id in m then m[id] else NoEvent
  }

  /** Left hands use the left dictionary; every other hand type the right one. */
  function SideOf(mem: GripMemory, t: HandType): map<int, HandEventType> {
    if t == LeftHand then mem.left else mem.right
  }

  function Remember(mem: GripMemory, t: HandType, id: int, ev: HandEventType): GripMemory {
    if ev == NoEvent then mem
    else if t == LeftHand then mem.(left := mem.left[id := ev])
    else mem.(right := mem.right[id := ev])
  }

  /** Storing a hand's event changes only that user on that hand's side, and
      what is then recalled is the hand's own event unless it has none. */
  lemma RememberRecall(mem: GripMemory, t: HandType, id: int, ev: HandEventType, t': HandType, id': int)
    ensures var m := Remember(mem, t, id, ev);
      Recall(SideOf(m, t'), id') ==
        if ev != NoEvent && id' == id && SameSide(t, t') then ev else Recall(SideOf(mem, t'), id')
  {
  }

  predicate SameSide(a: HandType, b: HandType) {
    (a == LeftHand) == (b == LeftHand)
  }

  /** The memory, the hand dictionary built so far, and whether Add threw. */
  datatype HandsResult = HandsResult(memory: GripMemory, hands: map<HandType, HandEventType>, duplicate: bool)

  /** The inner loop of DetectGripping over one user's hand pointers: store
      the hand's event when it has one, then add the recalled event under the
      hand type. The store happens before Add can throw. */
  function GripHands(mem: GripMemory, id: int, hs: seq<HandPointer>): HandsResult {
    if hs == [] then HandsResult(mem, map[], false)
    else
      var prev := GripHands(mem, id, hs[..|hs| - 1]);
      var hand := hs[|hs| - 1];
      if prev.duplicate then prev
      else
        var m := Remember(prev.memory, hand.handType, id, hand.handEventType);
        var ev := Recall(SideOf(m, hand.handType), id);
        if hand.handType in prev.hands then HandsResult(m, prev.hands, true)
        else HandsResult(m, prev.hands[hand.handType := ev], false)
  }

  /** Once Add has thrown, later hands change nothing. */
  lemma {:induction false} GripHandsStaysDuplicate(mem: GripMemory, id: int, hs: seq<HandPointer>, j: nat)
    requires j <= |hs| && GripHands(mem, id, hs[..j]).duplicate
    ensures GripHands(mem, id, hs) == GripHands(mem, id, hs[..j])
  {
    if j < |hs| {
      var prefix := hs[..|hs| - 1];
      assert prefix[..j] == hs[..j];
      GripHandsStaysDuplicate(mem, id, prefix, j);
    } else {
      assert hs[..j] == hs;
    }
  }

  /** Add throws exactly when two pointers share a hand type; otherwise the
      dictionary's keys are the pointers' hand types. */
  lemma {:induction false} GripHandsKeys(mem: GripMemory, id: int, hs: seq<HandPointer>)
    ensures GripHands(mem, id, hs).duplicate <==> HasRepeatedHandType(hs)
    ensures !GripHands(mem, id, hs).duplicate ==>
      forall t :: t in GripHands(mem, id, hs).hands <==> exists k :: 0 <= k < |hs| && hs[k].handType == t
  {
    if hs != [] {
      var prefix, hand := hs[..|hs| - 1], hs[|hs| - 1];
      GripHandsKeys(mem, id, prefix);
      var prev := GripHands(mem, id, prefix);
      if prev.duplicate {
        var i, j :| 0 <= i < j < |prefix| && prefix[i].handType == prefix[j].handType;
        assert hs[i] == prefix[i] && hs[j] == prefix[j];
      } else {
        if hand.handType in prev.hands {
          var k :| 0 <= k < |prefix| && prefix[k].handType == hand.handType;
          assert hs[k] == prefix[k];
          assert HasRepeatedHandType(hs) by {
            assert hs[k].handType == hs[|hs| - 1].handType;
          }
        } else {
          assert !HasRepeatedHandType(hs) by {
            forall i, j | 0 <= i < j < |hs| ensures hs[i].handType != hs[j].handType {
              if j < |prefix| {
                assert hs[i] == prefix[i] && hs[j] == prefix[j];
              } else {
                assert hs[i] == prefix[i];
              }
            }
          }
          forall t ensures t in GripHands(mem, id, hs).hands <==> exists k :: 0 <= k < |hs| && hs[k].handType == t {
            if t in prev.hands {
              var k :| 0 <= k < |prefix| && prefix[k].handType == t;
              assert hs[k] == prefix[k];
            }
            if exists k :: 0 <= k < |hs| && hs[k].handType == t {
              var k :| 0 <= k < |hs| && hs[k].handType == t;
              if k < |prefix| {
                assert prefix[k] == hs[k];
              }
            }
          }
        }
      }
    }
  }

  /** The events of the pointers on the same side as hand type t, in order. */
  function SideEvents(hs: seq<HandPointer>, t: HandType): seq<HandEventType> {
    if hs == [] then []
    else
      var hand := hs[|hs| - 1];
      SideEvents(hs[..|hs| - 1], t) + (if SameSide(hand.handType, t) then [hand.handEventType] else [])
  }

  /** The last event of the list that is not None, or `fallback` when there is none. */
  function LatestEvent(evs: seq<HandEventType>, fallback: HandEventType): HandEventType {
    if evs == [] then fallback
    else if evs[|evs| - 1] != NoEvent then evs[|evs| - 1]
    else LatestEvent(evs[..|evs| - 1], fallback)
  }

  /** Without a thrown Add, the memory of a side holds the latest non-None
      event of that side's pointers, or what it held before. */
  lemma {:induction false} GripHandsRemembersLatest(mem: GripMemory, id: int, hs: seq<HandPointer>, t: HandType)
    requires !GripHands(mem, id, hs).duplicate
    ensures Recall(SideOf(GripHands(mem, id, hs).memory, t), id) ==
      LatestEvent(SideEvents(hs, t), Recall(SideOf(mem, t), id))
  {
    if hs != [] {
      var prefix, hand := hs[..|hs| - 1], hs[|hs| - 1];
      GripHandsRemembersLatest(mem, id, prefix, t);
      var prev := GripHands(mem, id, prefix);
      RememberRecall(prev.memory, hand.handType, id, hand.handEventType, t, id);
      var before := SideEvents(prefix, t);
      if SameSide(hand.handType, t) {
        assert SideEvents(hs, t) == before + [hand.handEventType];
        assert (before + [hand.handEventType])[..|before|] == before;
      } else {
        assert SideEvents(hs, t) == before;
      }
    }
  }

  /** Each reported hand event is the latest non-None event stored for that
      user and side when the hand is reached, or None if none has been stored. */
  lemma {:induction false} GripHandsReportsLatest(mem: GripMemory, id: int, hs: seq<HandPointer>, k: nat)
    requires k < |hs| && !GripHands(mem, id, hs).duplicate
    ensures var t := hs[k].handType; var r := GripHands(mem, id, hs);
      t in r.hands && r.hands[t] == LatestEvent(SideEvents(hs[..k + 1], t), Recall(SideOf(mem, t), id))
  {
    var prefix, hand := hs[..|hs| - 1], hs[|hs| - 1];
    var prev := GripHands(mem, id, prefix);
    assert !prev.duplicate;
    if k == |hs| - 1 {
      assert hs[..k + 1] == hs;
      GripHandsRemembersLatest(mem, id, hs, hand.handType);
    } else {
      GripHandsReportsLatest(mem, id, prefix, k);
      assert prefix[..k + 1] == hs[..k + 1];
      assert prefix[k] == hs[k];
    }
  }

  /** The memory, the grip dictionary built so far, and whether Add threw. */
  datatype UsersResult = UsersResult(memory: GripMemory, grips: map<int, map<HandType, HandEventType>>, duplicate: bool)

  /** One turn of the outer loop of DetectGripping. */
  function GripUsersStep(prev: UsersResult, u: UserInfo): UsersResult {
    if prev.duplicate || !Reportable(u) then prev
    else
      var h := GripHands(prev.memory, u.skeletonTrackingId, u.handPointers);
      if h.duplicate || u.skeletonTrackingId in prev.grips then UsersResult(h.memory, prev.grips, true)
      else UsersResult(h.memory, prev.grips[u.skeletonTrackingId := h.hands], false)
  }

  /** The outer loop of DetectGripping over the users of the frame. */
  function GripUsers(mem: GripMemory, users: seq<UserInfo>): UsersResult {
    if users == [] then UsersResult(mem, map[], false)
    else GripUsersStep(GripUsers(mem, users[..|users| - 1]), users[|users| - 1])
  }

  lemma {:induction false} GripUsersStaysDuplicate(mem: GripMemory, users: seq<UserInfo>, i: nat)
    requires i <= |users| && GripUsers(mem, users[..i]).duplicate
    ensures GripUsers(mem, users) == GripUsers(mem, users[..i])
  {
    if i < |users| {
      var prefix := users[..|users| - 1];
      assert prefix[..i] == users[..i];
      GripUsersStaysDuplicate(mem, prefix, i);
    } else {
      assert users[..i] == users;
    }
  }

  /** Without a thrown Add, the grip dictionary has an entry for exactly the
      reportable users. */
  lemma {:induction false} GripUsersKeys(mem: GripMemory, users: seq<UserInfo>, id: int)
    requires !GripUsers(mem, users).duplicate
    ensures id in GripUsers(mem, users).grips <==>
      exists k :: 0 <= k < |users| && Reportable(users[k]) && users[k].skeletonTrackingId == id
  {
    if users != [] {
      var prefix, u := users[..|users| - 1], users[|users| - 1];
      GripUsersKeys(mem, prefix, id);
      if exists k :: 0 <= k < |prefix| && Reportable(prefix[k]) && prefix[k].skeletonTrackingId == id {
        var k :| 0 <= k < |prefix| && Reportable(prefix[k]) && prefix[k].skeletonTrackingId == id;
        assert users[k] == prefix[k];
      }
      if exists k :: 0 <= k < |users| && Reportable(users[k]) && users[k].skeletonTrackingId == id {
        var k :| 0 <= k < |users| && Reportable(users[k]) && users[k].skeletonTrackingId == id;
        if k < |prefix| {
          assert prefix[k] == users[k];
        }
      }
    }
  }

  /** One user's hands store events under that user's id only. */
  lemma {:induction false} GripHandsOtherIds(mem: GripMemory, id: int, hs: seq<HandPointer>, t: HandType, other: int)
    requires other != id
    ensures Recall(SideOf(GripHands(mem, id, hs).memory, t), other) == Recall(SideOf(mem, t), other)
  {
    if hs != [] {
      var prefix, hand := hs[..|hs| - 1], hs[|hs| - 1];
      GripHandsOtherIds(mem, id, prefix, t, other);
      RememberRecall(GripHands(mem, id, prefix).memory, hand.handType, id, hand.handEventType, t, other);
    }
  }

  /** Users with other ids leave an id's stored events alone. */
  lemma {:induction false} GripUsersOtherIds(mem: GripMemory, users: seq<UserInfo>, t: HandType, id: int)
    requires forall k :: 0 <= k < |users| && Reportable(users[k]) ==> users[k].skeletonTrackingId != id
    ensures Recall(SideOf(GripUsers(mem, users).memory, t), id) == Recall(SideOf(mem, t), id)
  {
    if users != [] {
      var prefix, u := users[..|users| - 1], users[|users| - 1];
      assert forall k :: 0 <= k < |prefix| ==> prefix[k] == users[k];
      GripUsersOtherIds(mem, prefix, t, id);
      var prev := GripUsers(mem, prefix);
      if !prev.duplicate && Reportable(u) {
        GripHandsOtherIds(prev.memory, u.skeletonTrackingId, u.handPointers, t, id);
      }
    }
  }

  /** Without a thrown Add, DetectGripping reports for every hand of every
      reportable user the latest non-None event of that user's side up to
      that hand, falling back on what was stored for the user before the
      frame: other users' turns change nothing for this user. */
  lemma {:induction false} GripUsersReportsLatest(mem: GripMemory, users: seq<UserInfo>, k: nat, j: nat)
    requires !GripUsers(mem, users).duplicate
    requires k < |users| && Reportable(users[k]) && j < |users[k].handPointers|
    ensures var id, hs := users[k].skeletonTrackingId, users[k].handPointers;
      var t, r := hs[j].handType, GripUsers(mem, users);
      id in r.grips && t in r.grips[id] &&
      r.grips[id][t] == LatestEvent(SideEvents(hs[..j + 1], t), Recall(SideOf(mem, t), id))
  {
    var prefix, u := users[..|users| - 1], users[|users| - 1];
    var prev := GripUsers(mem, prefix);
    var id, hs := users[k].skeletonTrackingId, users[k].handPointers;
    var t := hs[j].handType;
    assert !prev.duplicate;
    if k == |users| - 1 {
      var h := GripHands(prev.memory, id, hs);
      assert !h.duplicate && id !in prev.grips;
      GripHandsReportsLatest(prev.memory, id, hs, j);
      GripUsersKeys(mem, prefix, id);
      GripUsersOtherIds(mem, prefix, t, id);
    } else {
      assert prefix[k] == users[k];
      GripUsersReportsLatest(mem, prefix, k, j);
    }
  }

  /** The hand dictionary of DetectPressing and whether Add threw. */
  datatype PressHandsResult = PressHandsResult(hands: map<HandType, bool>, duplicate: bool)

  function PressHands(hs: seq<HandPointer>): PressHandsResult {
    if hs == [] then PressHandsResult(map[], false)
    else
      var prev := PressHands(hs[..|hs| - 1]);
      var hand := hs[|hs| - 1];
      if prev.duplicate then prev
      else if hand.handType in prev.hands then PressHandsResult(prev.hands, true)
      else PressHandsResult(prev.hands[hand.handType := hand.isPressed], false)
  }

  /** Add throws exactly when two pointers share a hand type; otherwise every
      pointer's hand type maps to that pointer's pressed flag. */
  lemma {:induction false} PressHandsReports(hs: seq<HandPointer>)
    ensures PressHands(hs).duplicate <==> HasRepeatedHandType(hs)
    ensures !PressHands(hs).duplicate ==>
      (forall k :: 0 <= k < |hs| ==>
         hs[k].handType in PressHands(hs).hands && PressHands(hs).hands[hs[k].handType] == hs[k].isPressed) &&
      (forall t :: t in PressHands(hs).hands ==> exists k :: 0 <= k < |hs| && hs[k].handType == t)
  {
    if hs != [] {
      var prefix, hand := hs[..|hs| - 1], hs[|hs| - 1];
      PressHandsReports(prefix);
      var prev := PressHands(prefix);
      if prev.duplicate {
        var i, j :| 0 <= i < j < |prefix| && prefix[i].handType == prefix[j].handType;
        assert hs[i] == prefix[i] && hs[j] == prefix[j];
      } else if hand.handType in prev.hands {
        var k :| 0 <= k < |prefix| && prefix[k].handType == hand.handType;
        assert hs[k] == prefix[k];
        assert hs[k].handType == hs[|hs| - 1].handType;
      } else {
        assert !HasRepeatedHandType(hs) by {
          forall i, j | 0 <= i < j < |hs| ensures hs[i].handType != hs[j].handType {
            assert hs[i] == prefix[i];
            if j < |prefix| {
              assert hs[j] == prefix[j];
            }
          }
        }
        forall k | 0 <= k < |hs|
          ensures hs[k].handType in PressHands(hs).hands && PressHands(hs).hands[hs[k].handType] == hs[k].isPressed
        {
          if k < |prefix| {
            assert hs[k] == prefix[k];
          }
        }
        forall t | t in PressHands(hs).hands ensures exists k :: 0 <= k < |hs| && hs[k].handType == t {
          if t in prev.hands {
            var k :| 0 <= k < |prefix| && prefix[k].handType == t;
            assert hs[k] == prefix[k];
          } else {
            assert hs[|hs| - 1].handType == t;
          }
        }
      }
    }
  }

  datatype PressUsersResult = PressUsersResult(presses: map<int, map<HandType, bool>>, duplicate: bool)

  /** One turn of the outer loop of DetectPressing. */
  function PressUsersStep(prev: PressUsersResult, u: UserInfo): PressUsersResult {
    if prev.duplicate || !Reportable(u) then prev
    else
      var h := PressHands(u.handPointers);
      if h.duplicate || u.skeletonTrackingId in prev.presses then PressUsersResult(prev.presses, true)
      else PressUsersResult(prev.presses[u.skeletonTrackingId := h.hands], false)
  }

  /** The outer loop of DetectPressing over the users of the frame. */
  function PressUsers(users: seq<UserInfo>): PressUsersResult {
    if users == [] then PressUsersResult(map[], false)
    else PressUsersStep(PressUsers(users[..|users| - 1]), users[|users| - 1])
  }

  lemma {:induction false} PressUsersStaysDuplicate(users: seq<UserInfo>, i: nat)
    requires i <= |users| && PressUsers(users[..i]).duplicate
    ensures PressUsers(users) == PressUsers(users[..i])
  {
    if i < |users| {
      var prefix := users[..|users| - 1];
      assert prefix[..i] == users[..i];
      PressUsersStaysDuplicate(prefix, i);
    } else {
      assert users[..i] == users;
    }
  }

  /** Without a thrown Add, the press dictionary has an entry for exactly the
      reportable users, each holding that user's hand dictionary. */
  lemma {:induction false} PressUsersKeys(users: seq<UserInfo>, id: int)
    requires !PressUsers(users).duplicate
    ensures id in PressUsers(users).presses <==>
      exists k :: 0 <= k < |users| && Reportable(users[k]) && users[k].skeletonTrackingId == id
    ensures id in PressUsers(users).presses ==>
      exists k :: 0 <= k < |users| && Reportable(users[k]) && users[k].skeletonTrackingId == id &&
        PressUsers(users).presses[id] == PressHands(users[k].handPointers).hands
  {
    if users != [] {
      var prefix, u := users[..|users| - 1], users[|users| - 1];
      PressUsersKeys(prefix, id);
      var prev := PressUsers(prefix);
      if id in prev.presses {
        var k :| 0 <= k < |prefix| && Reportable(prefix[k]) && prefix[k].skeletonTrackingId == id &&
          prev.presses[id] == PressHands(prefix[k].handPointers).hands;
        assert users[k] == prefix[k];
      }
      if exists k :: 0 <= k < |users| && Reportable(users[k]) && users[k].skeletonTrackingId == id {
        var k :| 0 <= k < |users| && Reportable(users[k]) && users[k].skeletonTrackingId == id;
        if k < |prefix| {
          assert prefix[k] == users[k];
        }
      }
    }
  }

  // -------------------------------------------------------------- detector

  class HandGestureDetector {
    /** _startTimeSwipeRight and _isOnRight: the swipe-left detector (right hand). */
    var startTimeSwipeRight: Option<int>
    var isOnRight: bool
    /** _startTimeSwipeLeft and _isOnLeft: the swipe-right detector (left hand). */
    var startTimeSwipeLeft: Option<int>
    var isOnLeft: bool
    var lastLeftHandEvents: map<int, HandEventType>
    var lastRightHandEvents: map<int, HandEventType>

    function SwipeLeftState(): SwipeState
      reads this
    {
      SwipeState(startTimeSwipeRight, isOnRight)
    }

    function SwipeRightState(): SwipeState
      reads this
    {
      SwipeState(startTimeSwipeLeft, isOnLeft)
    }

    function Memory(): GripMemory
      reads this
    {
      GripMemory(lastLeftHandEvents, lastRightHandEvents)
    }

    ghost predicate Valid()
      reads this
    {
      Consistent(SwipeLeftState()) && Consistent(SwipeRightState())
    }

    constructor ()
      ensures Valid()
      ensures SwipeLeftState() == Idle && SwipeRightState() == Idle
      ensures Memory() == GripMemory(map[], map[])
    {
      startTimeSwipeRight, isOnRight := None, false;
      startTimeSwipeLeft, isOnLeft := None, false;
      lastLeftHandEvents, lastRightHandEvents := map[], map[];
    }

    /** DetectSwipeLeftGesture at time `now`. */
    method DetectSwipeLeftGesture(skeleton: Option<Skeleton>, now: int) returns (swipeDetected: bool)
      requires Valid()
      modifies this`startTimeSwipeRight, this`isOnRight
      ensures Valid()
      ensures SwipeOutcome(SwipeLeftState(), swipeDetected) == SwipeStep(SwipeLeft, old(SwipeLeftState()), skeleton, now)
    {
      SwipeStepConsistent(SwipeLeft, SwipeLeftState(), skeleton, now);
      if skeleton.None? {
        return false;
      }
      var sk := skeleton.value;
      swipeDetected := false;
      if sk.Joint(HandRight).y < sk.Joint(ElbowRight).y {
        startTimeSwipeRight, isOnRight := None, false;
        return false;
      }
      if sk.Joint(HandRight).y > sk.Joint(Head).y {
        startTimeSwipeRight, isOnRight := None, false;
        return false;
      }
      if sk.Joint(HandRight).y < sk.Joint(HipCenter).y {
        startTimeSwipeRight, isOnRight := None, false;
        return false;
      }
      var rightHandPosition := sk.Joint(HandRight);
      var rightShoulderPosition := sk.Joint(ShoulderRight);
      if rightHandPosition.x >= rightShoulderPosition.x {
        if rightHandPosition.x - rightShoulderPosition.x > rightShoulderPosition.x - sk.Joint(ShoulderCenter).x {
          startTimeSwipeRight, isOnRight := None, false;
          return false;
        }
        isOnRight := true;
      }
      if isOnRight {
        if startTimeSwipeRight.None? {
          startTimeSwipeRight := Some(now);
        }
        var elapsed := now - startTimeSwipeRight.value;
        if rightHandPosition.x <= sk.Joint(ShoulderCenter).x && elapsed < SwipeMaximalDuration
          && elapsed > SwipeMinimalDuration
        {
          swipeDetected := true;
          startTimeSwipeRight, isOnRight := None, false;
        }
      }
    }

    /** DetectSwipeRightGesture at time `now`. */
    method DetectSwipeRightGesture(skeleton: Option<Skeleton>, now: int) returns (swipeDetected: bool)
      requires Valid()
      modifies this`startTimeSwipeLeft, this`isOnLeft
      ensures Valid()
      ensures SwipeOutcome(SwipeRightState(), swipeDetected) == SwipeStep(SwipeRight, old(SwipeRightState()), skeleton, now)
    {
      SwipeStepConsistent(SwipeRight, SwipeRightState(), skeleton, now);
      if skeleton.None? {
        return false;
      }
      var sk := skeleton.value;
      swipeDetected := false;
      if sk.Joint(HandLeft).y < sk.Joint(ElbowLeft).y {
        startTimeSwipeLeft, isOnLeft := None, false;
        return false;
      }
      if sk.Joint(HandLeft).y > sk.Joint(Head).y {
        startTimeSwipeLeft, isOnLeft := None, false;
        return false;
      }
      if sk.Joint(HandLeft).y < sk.Joint(HipCenter).y {
        startTimeSwipeLeft, isOnLeft := None, false;
        return false;
      }
      var leftHandPosition := sk.Joint(HandLeft);
      var leftShoulderPosition := sk.Joint(ShoulderLeft);
      if leftHandPosition.x <= leftShoulderPosition.x {
        if leftHandPosition.x - leftShoulderPosition.x < leftShoulderPosition.x - sk.Joint(ShoulderCenter).x {
          startTimeSwipeLeft, isOnLeft := None, false;
          return false;
        }
        isOnLeft := true;
      }
      if isOnLeft {
        if startTimeSwipeLeft.None? {
          startTimeSwipeLeft := Some(now);
        }
        var elapsed := now - startTimeSwipeLeft.value;
        if leftHandPosition.x >= sk.Joint(ShoulderCenter).x && elapsed < SwipeMaximalDuration
          && elapsed > SwipeMinimalDuration
        {
          swipeDetected := true;
          startTimeSwipeLeft, isOnLeft := None, false;
        }
      }
    }

    /** The inner loop of DetectGripping over one user's hand pointers; it
        stops at the first hand type that is already in the dictionary. */
    method GripUserHands(userID: int, handPointers: seq<HandPointer>)
      returns (handDictionary: map<HandType, HandEventType>, duplicate: bool)
      modifies this`lastLeftHandEvents, this`lastRightHandEvents
      ensures GripHands(old(Memory()), userID, handPointers) == HandsResult(Memory(), handDictionary, duplicate)
    {
      handDictionary := map[];
      var j := 0;
      while j < |handPointers|
        invariant 0 <= j <= |handPointers|
        invariant GripHands(old(Memory()), userID, handPointers[..j]) == HandsResult(Memory(), handDictionary, false)
      {
        assert handPointers[..j + 1][..j] == handPointers[..j];
        var hand := handPointers[j];
        if hand.handEventType != NoEvent {
          if hand.handType == LeftHand {
            lastLeftHandEvents := lastLeftHandEvents[userID := hand.handEventType];
          } else {
            lastRightHandEvents := lastRightHandEvents[userID := hand.handEventType];
          }
        }
        var lastHandEvents := if hand.handType == LeftHand then lastLeftHandEvents else lastRightHandEvents;
        var lastHandEvent := if userID in lastHandEvents then lastHandEvents[userID] else NoEvent;
        if hand.handType in handDictionary {
          GripHandsStaysDuplicate(old(Memory()), userID, handPointers, j + 1);
          return handDictionary, true;
        }
        handDictionary := handDictionary[hand.handType := lastHandEvent];
        j := j + 1;
      }
      assert handPointers[..j] == handPointers;
      duplicate := false;
    }

    /** DetectGripping over the users copied out of the interaction frame
        (None for a null frame). */
    method DetectGripping(interactionFrame: Option<seq<UserInfo>>)
      returns (r: Reported<map<int, map<HandType, HandEventType>>>)
      modifies this`lastLeftHandEvents, this`lastRightHandEvents
      ensures interactionFrame.None? ==> r == NullFrame && Memory() == old(Memory())
      ensures interactionFrame.Some? ==>
        var res := GripUsers(old(Memory()), interactionFrame.value);
        Memory() == res.memory && r == (if res.duplicate then DuplicateKey else Report(res.grips))
    {
      if interactionFrame.None? {
        return NullFrame;
      }
      var users := interactionFrame.value;
      var gripDictionary: map<int, map<HandType, HandEventType>> := map[];
      var i := 0;
      while i < |users|
        invariant 0 <= i <= |users|
        invariant GripUsers(old(Memory()), users[..i]) == UsersResult(Memory(), gripDictionary, false)
      {
        assert users[..i + 1][..i] == users[..i];
        ghost var before := UsersResult(Memory(), gripDictionary, false);
        assert GripUsers(old(Memory()), users[..i + 1]) == GripUsersStep(before, users[i]);
        var userInfo := users[i];
        var userID := userInfo.skeletonTrackingId;
        if userID == 0 {
          i := i + 1;
          continue;
        }
        var handPointers := userInfo.handPointers;
        if |handPointers| == 0 {
          i := i + 1;
          continue;
        }
        if |handPointers| == 2 && handPointers[0].handType == NoHand && handPointers[1].handType == NoHand {
          i := i + 1;
          continue;
        }
        ghost var memBefore := Memory();
        var handDictionary, duplicate := GripUserHands(userID, handPointers);
        if duplicate {
          GripUsersStaysDuplicate(old(Memory()), users, i + 1);
          return DuplicateKey;
        }
        if userID in gripDictionary {
          GripUsersStaysDuplicate(old(Memory()), users, i + 1);
          return DuplicateKey;
        }
        gripDictionary := gripDictionary[userID := handDictionary];
        i := i + 1;
      }
      assert users[..i] == users;
      return Report(gripDictionary);
    }

    /** DetectPressing over the users copied out of the interaction frame
        (None for a null frame). */
    method DetectPressing(interactionFrame: Option<seq<UserInfo>>)
      returns (r: Reported<map<int, map<HandType, bool>>>)
      ensures interactionFrame.None? ==> r == NullFrame
      ensures interactionFrame.Some? ==>
        var res := PressUsers(interactionFrame.value);
        r == (if res.duplicate then DuplicateKey else Report(res.presses))
    {
      if interactionFrame.None? {
        return NullFrame;
      }
      var users := interactionFrame.value;
      var pressDictionary: map<int, map<HandType, bool>> := map[];
      var i := 0;
      while i < |users|
        invariant 0 <= i <= |users|
        invariant PressUsers(users[..i]) == PressUsersResult(pressDictionary, false)
      {
        assert users[..i + 1][..i] == users[..i];
        assert PressUsers(users[..i + 1]) == PressUsersStep(PressUsersResult(pressDictionary, false), users[i]);
        var userInfo := users[i];
        var userID := userInfo.skeletonTrackingId;
        if userID == 0 {
          i := i + 1;
          continue;
        }
        var handPointers := userInfo.handPointers;
        if |handPointers| == 0 {
          i := i + 1;
          continue;
        }
        if |handPointers| == 2 && handPointers[0].handType == NoHand && handPointers[1].handType == NoHand {
          i := i + 1;
          continue;
        }
        var handDictionary, duplicate := PressUserHands(handPointers);
        if duplicate {
          PressUsersStaysDuplicate(users, i + 1);
          return DuplicateKey;
        }
        if userID in pressDictionary {
          PressUsersStaysDuplicate(users, i + 1);
          return DuplicateKey;
        }
        pressDictionary := pressDictionary[userID := handDictionary];
        i := i + 1;
      }
      assert users[..i] == users;
      return Report(pressDictionary);
    }
  }

  /** The inner loop of DetectPressing over one user's hand pointers; it
      stops at the first hand type that is already in the dictionary. */
  method PressUserHands(handPointers: seq<HandPointer>) returns (handDictionary: map<HandType, bool>, duplicate: bool)
    ensures PressHands(handPointers) == PressHandsResult(handDictionary, duplicate)
  {
    handDictionary := map[];
    var j := 0;
    while j < |handPointers|
      invariant 0 <= j <= |handPointers|
      invariant PressHands(handPointers[..j]) == PressHandsResult(handDictionary, false)
    {
      assert handPointers[..j + 1][..j] == handPointers[..j];
      var hand := handPointers[j];
      if hand.handType in handDictionary {
        PressHandsStaysDuplicate(handPointers, j + 1);
        return handDictionary, true;
      }
      handDictionary := handDictionary[hand.handType := hand.isPressed];
      j := j + 1;
    }
    assert handPointers[..j] == handPointers;
    duplicate := false;
  }

  lemma {:induction false} PressHandsStaysDuplicate(hs: seq<HandPointer>, j: nat)
    requires j <= |hs| && PressHands(hs[..j]).duplicate
    ensures PressHands(hs) == PressHands(hs[..j])
  {
    if j < |hs| {
      var prefix := hs[..|hs| - 1];
      assert prefix[..j] == hs[..j];
      PressHandsStaysDuplicate(prefix, j);
    } else {
      assert hs[..j] == hs;
    }
  }
}
