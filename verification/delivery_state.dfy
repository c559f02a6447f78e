/**
 * The dashboard's persisted state and its save-loop guard: a one-shot flag
 * marks an update that came from the extension so that the auto-save effect
 * skips exactly that update, while every user change is saved once.
 */
module DeliveryState {
  import opened Values
  import opened Records

  /** Where the shown data came from: `'none'`, `'extension'`, `'cached'` or `'live'`. */
  datatype DataSource = NoData | FromExtension | FromCache | Live

  /**
   * The hook's state: the buckets, the per-bucket selection, the active
   * bucket, the data source, the `isExtensionUpdate` flag, and the deliveries
   * handed to `saveToExtensionStorage` so far, oldest first.
   */
  datatype DashboardState = DashboardState(
    deliveries: Buckets,
    selected: Selection,
    activeTab: string,
    source: DataSource,
    extensionUpdate: bool,
    saves: seq<Buckets>)

  /** The state on first render. */
  function InitialState(): (s: DashboardState)
    ensures s.deliveries == EmptyBuckets() && s.activeTab == Ky
    ensures s.source == NoData && !s.extensionUpdate && s.saves == []
    ensures s.selected.Keys == {Ky, Mcm, OtherBucket} && forall k :: k in s.selected ==> s.selected[k] == []
  {
    DashboardState(EmptyBuckets(), map[Ky := [], Mcm := [], OtherBucket := []], Ky, NoData, false, [])
  }

  /** What can change the deliveries. */
  datatype Event =
    | MountLoaded(stored: Option<Buckets>)   // the mount-time load resolved
    | UserUpdate(next: Buckets)              // `updateDeliveries`
    | ExtensionUpdate(next: Buckets)         // `setDeliveriesFromExtension`

  /**
   * The auto-save effect, run after the deliveries or the source changed.
   * With no data yet it returns before anything else, so the flag is left as
   * it is; otherwise it either consumes the flag or saves.
   */
  function AutoSave(s: DashboardState): (t: DashboardState)
    ensures s.source == NoData ==> t == s
    ensures t.deliveries == s.deliveries && t.source == s.source
    ensures s.source != NoData ==> !t.extensionUpdate
    ensures |t.saves| == |s.saves| + (if s.source != NoData && !s.extensionUpdate then 1 else 0)
    ensures t.saves[..|s.saves|] == s.saves
  {
    if s.source == NoData then s
    else if s.extensionUpdate then s.(extensionUpdate := false)
    else s.(saves := s.saves + [s.deliveries])
  }

  /**
   * One event followed by the effect run it triggers. A load that found
   * nothing changes no state, so no effect runs for it.
   */
  function Step(s: DashboardState, e: Event): (t: DashboardState)
    ensures e == MountLoaded(None) ==> t == s
    ensures e.UserUpdate? ==> t.deliveries == e.next && t.saves == s.saves + [e.next] && t.source != NoData
    ensures e.ExtensionUpdate? ==> t.deliveries == e.next && t.saves == s.saves && t.source == Live
    ensures e.MountLoaded? && e.stored.Some? ==> t.deliveries == e.stored.value && t.saves == s.saves
    ensures e != MountLoaded(None) ==> !t.extensionUpdate
    ensures t.selected == s.selected && t.activeTab == s.activeTab
  {
    match e
    case MountLoaded(None) => s
    case MountLoaded(Some(b)) => AutoSave(s.(extensionUpdate := true, deliveries := b, source := FromExtension))
    case UserUpdate(b) =>
      AutoSave(s.(extensionUpdate := false, deliveries := b, source := if s.source == NoData then FromExtension else s.source))
    case ExtensionUpdate(b) => AutoSave(s.(extensionUpdate := true, deliveries := b, source := Live))
  }

  function Run(s: DashboardState, events: seq<Event>): DashboardState
    decreases |events|
  {
    if |events| == 0 then s else Run(Step(s, events[0]), events[1..])
  }

  /** The deliveries each user update hands over, in order. */
  function UserPayloads(events: seq<Event>): seq<Buckets>
    decreases |events|
  {
    if |events| == 0 then []
    else (if events[0].UserUpdate? then [events[0].next] else []) + UserPayloads(events[1..])
  }

  /**
   * Loop freedom: starting with the flag clear, the saves a run performs are
   * exactly the user updates, in order; loads and extension updates are never
   * saved back, and the flag is clear again afterwards.
   */
  lemma {:induction false} SavesAreUserUpdates(s: DashboardState, events: seq<Event>)
    requires !s.extensionUpdate
    ensures Run(s, events).saves == s.saves + UserPayloads(events)
    ensures !Run(s, events).extensionUpdate
    decreases |events|
  {
    if |events| > 0 {
      var t := Step(s, events[0]);
      SavesAreUserUpdates(t, events[1..]);
    }
  }

  /** From the first render, the whole session saves exactly its user updates. */
  lemma {:induction false} SessionSaves(events: seq<Event>)
    ensures Run(InitialState(), events).saves == UserPayloads(events)
  {
    SavesAreUserUpdates(InitialState(), events);
  }

  /** A user update is saved even when no data had arrived before: it switches the source to `'extension'`. */
  lemma {:induction false} FirstUserEditSaved(s: DashboardState, b: Buckets)
    requires s.source == NoData
    ensures Step(s, UserUpdate(b)).source == FromExtension
    ensures Step(s, UserUpdate(b)).saves == s.saves + [b]
  {
  }

  /** Data received from the extension is shown, marked live, and not saved back. */
  lemma {:induction false} ExtensionUpdateNotSaved(s: DashboardState, b: Buckets)
    ensures var t := Step(s, ExtensionUpdate(b));
            t.deliveries == b && t.source == Live && t.saves == s.saves && !t.extensionUpdate
  {
  }

  /** Stored data found on mount is shown, tagged as from the extension, and not saved back. */
  lemma {:induction false} MountLoadNotSaved(s: DashboardState, b: Buckets)
    ensures var t := Step(s, MountLoaded(Some(b)));
            t.deliveries == b && t.source == FromExtension && t.saves == s.saves
  {
  }

  /**
   * The mount-time load when `setDeliveries(stored)` and
   * `setDataSource('extension')` render separately, as they do in an
   * unbatched promise callback: the effect runs once for the new deliveries
   * and again for the new source, unless the source already was `'extension'`.
   */
  function MountLoadTwoRenders(s: DashboardState, b: Buckets): (t: DashboardState)
    ensures t.deliveries == b && t.source == FromExtension && !t.extensionUpdate
    ensures t.selected == s.selected && t.activeTab == s.activeTab
    ensures s.source == NoData || s.source == FromExtension ==> t.saves == s.saves
    ensures s.source == FromCache || s.source == Live ==> t.saves == s.saves + [b]
  {
    var first := AutoSave(s.(extensionUpdate := true, deliveries := b));
    if s.source == FromExtension then first
    else AutoSave(first.(source := FromExtension))
  }

  /**
   * Before any data arrived, the flag survives the first effect run, whose
   * early return leaves it set, and it suppresses the save on the second:
   * the two-render load saves nothing, like the one-render load.
   */
  lemma {:induction false} TwoRenderMountLoadNotSaved(s: DashboardState, b: Buckets)
    requires s.source == NoData
    ensures MountLoadTwoRenders(s, b).saves == s.saves
    ensures MountLoadTwoRenders(s, b) == Step(s, MountLoaded(Some(b)))
  {
    var first := AutoSave(s.(extensionUpdate := true, deliveries := b));
    assert first.extensionUpdate;
  }

  /** The flag is one-shot: an extension update followed by a user update saves the user's data once. */
  lemma {:induction false} FlagIsOneShot(s: DashboardState, fromExtension: Buckets, fromUser: Buckets)
    ensures Run(s, [ExtensionUpdate(fromExtension), UserUpdate(fromUser)]).saves == s.saves + [fromUser]
  {
    var t := Step(s, ExtensionUpdate(fromExtension));
    assert [ExtensionUpdate(fromExtension), UserUpdate(fromUser)][1..] == [UserUpdate(fromUser)];
    assert Run(t, [UserUpdate(fromUser)]) == Step(t, UserUpdate(fromUser));
  }

  /** Nothing is saved while no data has been received and the user has changed nothing. */
  lemma {:induction false} NoSaveWithoutData(events: seq<Event>)
    requires forall i :: 0 <= i < |events| ==> events[i] == MountLoaded(None)
    ensures Run(InitialState(), events) == InitialState()
    decreases |events|
  {
    if |events| > 0 {
      NoSaveWithoutData(events[1..]);
    }
  }
}
