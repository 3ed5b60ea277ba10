/** The Ludo setup screen: four seat slots whose kind cycles HUMAN, AI,
    CLOSED on each click, whose avatar can be redrawn, and a start button
    that works only with at least two seats open. */
module LudoSetup {
  import opened Types

  /** The kind a slot takes on the next click. */
  function NextSlotType(t: SlotType): (next: SlotType)
    ensures next != t
  {
    match t
    case Human => AI
    case AI => Closed
    case Closed => Human
  }

  /** Each click changes the kind, and three clicks bring it back. */
  lemma ToggleCycles(t: SlotType)
    ensures NextSlotType(t) != t
    ensures NextSlotType(NextSlotType(t)) != t
    ensures NextSlotType(NextSlotType(NextSlotType(t))) == t
  {
  }

  /** The number of slots that are not CLOSED. */
  function CountActive(slots: seq<SlotConfig>): (n: nat)
    ensures n <= |slots|
    ensures n == 0 <==> forall i :: 0 <= i < |slots| ==> slots[i].slotType == Closed
  {
    if slots == [] then 0
    else (if slots[0].slotType != Closed then 1 else 0) + CountActive(slots[1..])
  }

  /** Changing the kind of one slot changes the count by that slot alone. */
  lemma {:induction false} CountActiveUpdate(slots: seq<SlotConfig>, index: int, t: SlotType)
    requires 0 <= index < |slots|
    ensures CountActive(slots[index := slots[index].(slotType := t)])
      == CountActive(slots) - (if slots[index].slotType != Closed then 1 else 0) + (if t != Closed then 1 else 0)
  {
    var updated := slots[index := slots[index].(slotType := t)];
    if index > 0 {
      CountActiveUpdate(slots[1..], index - 1, t);
      assert updated[1..] == slots[1..][index - 1 := slots[index].(slotType := t)];
    } else {
      assert updated[1..] == slots[1..];
    }
  }

  /** One click on a slot: an AI slot closing takes one seat away, a closed
      slot opening adds one, and a HUMAN slot turning AI keeps the count. */
  lemma ToggleChangesCount(slots: seq<SlotConfig>, index: int)
    requires 0 <= index < |slots|
    ensures var n := CountActive(slots[index := slots[index].(slotType := NextSlotType(slots[index].slotType))]);
      match slots[index].slotType
      case Human => n == CountActive(slots)
      case AI => n == CountActive(slots) - 1
      case Closed => n == CountActive(slots) + 1
  {
    CountActiveUpdate(slots, index, NextSlotType(slots[index].slotType));
  }

  /** A new avatar does not open or close a seat. */
  lemma {:induction false} AvatarKeepsCount(slots: seq<SlotConfig>, index: int, avatar: string)
    requires 0 <= index < |slots|
    ensures CountActive(slots[index := slots[index].(avatar := avatar)]) == CountActive(slots)
  {
    var updated := slots[index := slots[index].(avatar := avatar)];
    if index > 0 {
      AvatarKeepsCount(slots[1..], index - 1, avatar);
      assert updated[1..] == slots[1..][index - 1 := slots[index].(avatar := avatar)];
    } else {
      assert updated[1..] == slots[1..];
    }
  }

  predicate CanStart(slots: seq<SlotConfig>)
  {
    CountActive(slots) >= 2
  }

  /** The setup colours, in the order the slots are laid out. */
  function SlotColor(index: int): Color
  {
    if index == 0 then Red else if index == 1 then Blue else if index == 2 then Yellow else Green
  }

  /** The four slots shown first: red played by a human, the others by the computer. */
  const InitialSlots: seq<SlotConfig> := [
    SlotConfig(Red, Human, "https://api.dicebear.com/9.x/bottts-neutral/svg?seed=red&backgroundColor=b6e3f4"),
    SlotConfig(Blue, AI, "https://api.dicebear.com/9.x/bottts-neutral/svg?seed=blue&backgroundColor=c0aede"),
    SlotConfig(Yellow, AI, "https://api.dicebear.com/9.x/bottts-neutral/svg?seed=yellow&backgroundColor=d1d4f9"),
    SlotConfig(Green, AI, "https://api.dicebear.com/9.x/bottts-neutral/svg?seed=green&backgroundColor=ffd5dc")
  ]

  lemma InitialSlotsCanStart()
    ensures |InitialSlots| == 4
    ensures forall i :: 0 <= i < 4 ==> InitialSlots[i].color == SlotColor(i)
    ensures CountActive(InitialSlots) == 4 && CanStart(InitialSlots)
  {
    assert CountActive(InitialSlots[3..]) == 1;
    assert CountActive(InitialSlots[2..]) == 2;
  }

  /** Slots the setup screen may start a match with are exactly what the match
      needs: four slots of different colours, at least one of them open. */
  lemma StartableSlotsFitTheGame(slots: seq<SlotConfig>)
    requires |slots| == 4 && forall i :: 0 <= i < 4 ==> slots[i].color == SlotColor(i)
    requires CanStart(slots)
    ensures forall i, j :: 0 <= i < j < |slots| ==> slots[i].color != slots[j].color
    ensures exists i :: 0 <= i < |slots| && slots[i].slotType != Closed
  {
  }

  class Setup {
    var slots: seq<SlotConfig>

    ghost predicate Valid()
      reads this
    {
      |slots| == 4 && forall i :: 0 <= i < 4 ==> slots[i].color == SlotColor(i)
    }

    constructor ()
      ensures Valid() && slots == InitialSlots
    {
      slots := InitialSlots;
    }

    /** The players count shown on the screen. */
    function ActivePlayersCount(): nat
      reads this
    {
      CountActive(slots)
    }

    /** A click on slot `index` moves its kind one step round the cycle and
        leaves every other slot, and this slot's colour and avatar, as they were. */
    method ToggleSlot(index: int)
      requires Valid() && 0 <= index < |slots|
      modifies this
      ensures Valid()
      ensures slots == old(slots)[index := old(slots)[index].(slotType := NextSlotType(old(slots)[index].slotType))]
    {
      var newSlots := slots;
      var current := newSlots[index].slotType;
      if current == Human {
        newSlots := newSlots[index := newSlots[index].(slotType := AI)];
      } else if current == AI {
        newSlots := newSlots[index := newSlots[index].(slotType := Closed)];
      } else {
        newSlots := newSlots[index := newSlots[index].(slotType := Human)];
      }
      slots := newSlots;
    }

    /** Gives slot `index` a new avatar; `avatar` stands for the address built
        from a random seed. Nothing else changes. */
    method RandomizeAvatar(index: int, avatar: string)
      requires Valid() && 0 <= index < |slots|
      modifies this
      ensures Valid()
      ensures slots == old(slots)[index := old(slots)[index].(avatar := avatar)]
      ensures CountActive(slots) == CountActive(old(slots))
    {
      var newSlots := slots;
      newSlots := newSlots[index := newSlots[index].(avatar := avatar)];
      AvatarKeepsCount(slots, index, avatar);
      slots := newSlots;
    }

    /** The start button: it hands the slots over only when at least two are open. */
    method Start() returns (configs: Option<seq<SlotConfig>>)
      requires Valid()
      ensures configs.Some? <==> CountActive(slots) >= 2
      ensures configs.Some? ==> configs.value == slots
    {
      if CanStart(slots) {
        configs := Some(slots);
      } else {
        configs := None;
      }
    }
  }
}
