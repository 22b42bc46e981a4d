/** The sidebar configuration: registry, stored rows of unknown shape, repair and validation. */
module SidebarModel {
  import opened Tables

  datatype Item =
    | Dashboard | PowerStats | Machines | Shop | Offers | Wallet | Support
    | Checkin | MiniPass | DailyTasks | RewardsGroup | InternalOfferwall
    | Faucet | Shortlinks | AutoMining | Youtube | ReadEarn
    | Games | HashSprint | Calculator | Manual | Ranking | Roadmap | Transparency

  datatype Section = Main | Earn | Social

  // ---- The registry ----

  function SectionOf(item: Item): Section {
    match item
    case Dashboard | PowerStats | Machines | Shop | Offers | Wallet | Support => Main
    case Games | HashSprint | Calculator | Manual | Ranking | Roadmap | Transparency => Social
    case _ => Earn
  }

  /** Items that belong under the rewards group by default. */
  predicate NestedByDefault(item: Item) {
    match item
    case InternalOfferwall | Faucet | Shortlinks | AutoMining | Youtube | ReadEarn => true
    case _ => false
  }

  predicate ParentLocked(item: Item) {
    item == Checkin || item == MiniPass || item == RewardsGroup || item == DailyTasks
  }

  function PathOf(item: Item): Option<string> {
    match item
    case Dashboard => Some("/dashboard")
    case PowerStats => Some("/power-stats")
    case Machines => Some("/inventory")
    case Shop => Some("/shop")
    case Offers => Some("/offers")
    case Wallet => Some("/wallet")
    case Support => Some("/support")
    case Checkin => Some("/checkin")
    case MiniPass => Some("/mini-pass")
    case RewardsGroup => None
    case Faucet => Some("/faucet")
    case Shortlinks => Some("/shortlinks")
    case AutoMining => Some("/auto-mining")
    case Youtube => Some("/youtube")
    case ReadEarn => Some("/read-earn")
    case InternalOfferwall => Some("/internal-offerwall")
    case DailyTasks => Some("/daily-tasks")
    case Games => Some("/games")
    case HashSprint => Some("/minigame")
    case Calculator => Some("/calculator")
    case Manual => Some("/manual")
    case Ranking => Some("/ranking")
    case Roadmap => Some("/roadmap")
    case Transparency => Some("/transparency")
  }

  const ITEMS := 24

  /** The default rows: item and sort order, by the place they are written in. */
  function DefaultAt(k: nat): (Item, int)
    requires k < ITEMS
  {
    match k
    case 0 => (Dashboard, 10) case 1 => (PowerStats, 20) case 2 => (Machines, 30) case 3 => (Shop, 40)
    case 4 => (Offers, 50) case 5 => (Wallet, 60) case 6 => (Support, 70) case 7 => (Checkin, 110)
    case 8 => (MiniPass, 115) case 9 => (DailyTasks, 118) case 10 => (RewardsGroup, 120)
    case 11 => (InternalOfferwall, 125)
    case 12 => (Faucet, 130) case 13 => (Shortlinks, 140) case 14 => (AutoMining, 150) case 15 => (Youtube, 160)
    case 16 => (ReadEarn, 170) case 17 => (Games, 210) case 18 => (HashSprint, 215) case 19 => (Calculator, 220)
    case 20 => (Manual, 230) case 21 => (Ranking, 240) case 22 => (Roadmap, 250) case _ => (Transparency, 260)
  }

  // ---- Rows as stored or sent ----

  /**
   * An `itemId` of any type: exactly an id, a string that is an id after trimming, another value that reads
   * as an id when used as a key, or anything else.
   */
  datatype RawId = Exact(item: Item) | Padded(item: Item) | Keyed(item: Item) | Foreign

  datatype RawParent = Absent | Null | Group | Other

  /** Fields of the wrong type are None; `extra` stands for the fields nobody looks at. */
  datatype Raw =
    | NotAnObject
    | Row(id: RawId, visible: Option<bool>, sortOrder: Option<int>, section: Option<Section>,
          parent: RawParent, extra: nat)

  datatype Stored = NotAList | List(rows: seq<Raw>)

  function DefaultParent(item: Item): RawParent {
    if NestedByDefault(item) then Group else Null
  }

  function DefaultRow(d: (Item, int)): Raw {
    Row(Exact(d.0), Some(true), Some(d.1), Some(SectionOf(d.0)), DefaultParent(d.0), 0)
  }

  function Defaults(): seq<(Item, int)> {
    seq(ITEMS, i requires 0 <= i < ITEMS => DefaultAt(i))
  }

  function DefaultRows(): seq<Raw> {
    seq(ITEMS, i requires 0 <= i < ITEMS => DefaultRow(DefaultAt(i)))
  }

  // ---- Repair ----

  /** A missing parent reads as null. */
  function CurrentParent(r: Raw): RawParent
    requires r.Row?
  {
    if r.parent == Absent then Null else r.parent
  }

  function Unlock(r: Raw): Raw {
    if r.Row? && (r.id.Exact? || r.id.Keyed?) && ParentLocked(r.id.item) && CurrentParent(r) != DefaultParent(r.id.item)
    then r.(parent := DefaultParent(r.id.item))
    else r
  }

  function Nest(r: Raw): Raw {
    if r.Row? && r.id == Exact(InternalOfferwall) && CurrentParent(r) != Group
    then r.(parent := Group, section := Some(Earn))
    else r
  }

  function UnlockAll(rows: seq<Raw>): seq<Raw> {
    seq(|rows|, i requires 0 <= i < |rows| => Unlock(rows[i]))
  }

  function NestAll(rows: seq<Raw>): seq<Raw> {
    seq(|rows|, i requires 0 <= i < |rows| => Nest(rows[i]))
  }

  predicate Names(r: Raw, item: Item) {
    r.Row? && !r.id.Foreign? && r.id.item == item
  }

  predicate Present(rows: seq<Raw>, item: Item) {
    exists i :: 0 <= i < |rows| && Names(rows[i], item)
  }

  /** Appends those of the default rows whose items no row names. */
  function MergedWith(rows: seq<Raw>, defaults: seq<(Item, int)>): seq<Raw> {
    if defaults == [] then rows
    else
      var d := defaults[|defaults| - 1];
      MergedWith(rows, defaults[..|defaults| - 1]) + if Present(rows, d.0) then [] else [DefaultRow(d)]
  }

  function Merged(rows: seq<Raw>): seq<Raw> {
    MergedWith(rows, Defaults())
  }

  // ---- Validation ----

  datatype Code =
    | InvalidEntryShape | UnknownItemId | InvalidVisible | InvalidSortOrder | InvalidSection | InvalidParent
    | SectionMismatch | LockedParent | MainSocialParentMustBeNull | CannotNestItem | GroupMustBeRoot
    | DuplicateItemId | IncompleteItemSet | RewardsGroupRequired

  function RowError(r: Raw): Option<Code> {
    if r.NotAnObject? then Some(InvalidEntryShape)
    else if !r.id.Exact? then Some(UnknownItemId)
    else if r.visible.None? then Some(InvalidVisible)
    else if r.sortOrder.None? then Some(InvalidSortOrder)
    else if r.section.None? then Some(InvalidSection)
    else if r.parent != Null && r.parent != Group then Some(InvalidParent)
    else
      var item := r.id.item;
      if SectionOf(item) != r.section.value then Some(SectionMismatch)
      else if ParentLocked(item) && r.parent != DefaultParent(item) then Some(LockedParent)
      else if SectionOf(item) != Earn && r.parent != Null then Some(MainSocialParentMustBeNull)
      else if SectionOf(item) == Earn && item != RewardsGroup && r.parent == Group && !NestedByDefault(item)
      then Some(CannotNestItem)
      else if item == RewardsGroup && r.parent != Null then Some(GroupMustBeRoot)
      else None
  }

  /** Ids of the first `n` rows. */
  function Seen(rows: seq<Raw>, n: nat): set<Item>
    requires n <= |rows| && forall i | 0 <= i < n :: RowError(rows[i]).None?
  {
    if n == 0 then {}
    else
      assert RowError(rows[n - 1]).None?;
      Seen(rows, n - 1) + {rows[n - 1].id.item}
  }

  /** The first error among rows from `n` on. */
  function FirstError(rows: seq<Raw>, n: nat): (e: Option<Code>)
    requires n <= |rows| && forall i | 0 <= i < n :: RowError(rows[i]).None?
    ensures e != Some(IncompleteItemSet) && e != Some(RewardsGroupRequired)
    decreases |rows| - n
  {
    if n == |rows| then None
    else if RowError(rows[n]).Some? then RowError(rows[n])
    else if rows[n].id.item in Seen(rows, n) then Some(DuplicateItemId)
    else FirstError(rows, n + 1)
  }

  lemma {:induction false} NoErrorNone(rows: seq<Raw>, n: nat)
    requires n <= |rows| && (forall i | 0 <= i < n :: RowError(rows[i]).None?) && FirstError(rows, n).None?
    ensures forall i | 0 <= i < |rows| :: RowError(rows[i]).None?
    decreases |rows| - n
  {
    if n < |rows| { NoErrorNone(rows, n + 1); }
  }

  function Validate(rows: seq<Raw>): Option<Code> {
    var first := FirstError(rows, 0);
    if first.Some? then first
    else
      NoErrorNone(rows, 0);
      if |Seen(rows, |rows|)| != ITEMS then Some(IncompleteItemSet)
      else if (exists i :: 0 <= i < |rows| && rows[i].parent == Group) && !Present(rows, RewardsGroup)
      then Some(RewardsGroupRequired)
      else None
  }

  // ---- Reading and saving ----

  /** `writes` counts the statements that wrote the row. */
  datatype Read = Read(stored: Option<Stored>, rows: seq<Raw>, writes: nat)

  function Repaired(rows: seq<Raw>): seq<Raw> {
    NestAll(UnlockAll(rows))
  }

  /** The list a read starts from. */
  function RawOf(stored: Option<Stored>): seq<Raw> {
    match stored
    case None => DefaultRows()
    case Some(NotAList) => []
    case Some(List(rows)) => rows
  }

  function Get(stored: Option<Stored>): Read {
    var raw := RawOf(stored);
    var repaired := Repaired(raw);
    var merged := Merged(repaired);
    var writes := (if stored.None? then 1 else 0) + (if repaired != raw then 1 else 0) +
      (if merged != repaired then 1 else 0);
    if Validate(merged).Some? then Read(Some(List(DefaultRows())), DefaultRows(), writes + 1)
    else if repaired != raw || merged != repaired then Read(Some(List(merged)), merged, writes)
    else Read(if stored.None? then Some(List(raw)) else stored, merged, writes)
  }

  datatype Saved = Refused(code: Code) | Accepted(rows: seq<Raw>)

  function Save(body: Stored): Saved {
    var rows := Repaired(if body.List? then body.rows else []);
    var error := Validate(rows);
    if error.Some? then Refused(error.value) else Accepted(rows)
  }

  function StoredAfter(stored: Option<Stored>, body: Stored): Option<Stored> {
    match Save(body)
    case Refused(_) => stored
    case Accepted(rows) => Some(List(rows))
  }
}
