/** The journal's entry list and the pure transforms `App` hands to
    `setEntries`: prepend on create, `filter` on delete and for the
    important-only view, `map` on edit and on the importance toggle, and the
    two bulk loads (the ten built-in entries, or the first ten posts of the
    placeholder API). */
module Journal {
  import opened Seqs

  /** One journal record. */
  datatype Entry = Entry(id: int, title: string, body: string, important: bool, userId: int)

  /** The placeholder owner every locally created entry is given. */
  const LocalUserId := 1

  /** How many posts a remote load keeps (`data.slice(0, 10)`). */
  const FetchLimit := 10

  /** No two entries of `entries` share an id. The app never checks this;
      the lemmas below say which transforms keep it. */
  ghost predicate DistinctIds(entries: seq<Entry>) {
    forall i, j :: 0 <= i < j < |entries| ==> entries[i].id != entries[j].id
  }

  /** Some entry of `entries` carries `id`. */
  ghost predicate HasId(entries: seq<Entry>, id: int) {
    exists e :: e in entries && e.id == id
  }

  /** `createEntry`: the new entry goes in front of the old list, which is
      kept as it was; it carries the submitted text, is not important and
      belongs to the placeholder owner. */
  function Create(entries: seq<Entry>, id: int, title: string, body: string): (r: seq<Entry>)
    ensures |r| == |entries| + 1 && r[1..] == entries
    ensures r[0].id == id && r[0].title == title && r[0].body == body
    ensures !r[0].important && r[0].userId == LocalUserId
  {
    [Entry(id, title, body, false, LocalUserId)] + entries
  }

  /** `deleteEntry`: every entry with a different id survives, in its
      original order and with its original multiplicity; every entry with
      this id is gone; an id nobody carries changes nothing. */
  function Delete(entries: seq<Entry>, id: int): (r: seq<Entry>)
    ensures IsSubsequence(r, entries)
    ensures forall e :: e in r <==> e in entries && e.id != id
    ensures !HasId(entries, id) ==> r == entries
  {
    Filter(entries, (e: Entry) => e.id != id)
  }

  /** `updateEntry`: length and order are kept; an entry with the id gets the
      new title and body and keeps its id, flag and owner; every other entry
      is left exactly as it was. */
  function Update(entries: seq<Entry>, id: int, title: string, body: string): (r: seq<Entry>)
    ensures |r| == |entries|
    ensures forall i :: 0 <= i < |r| ==>
      r[i].id == entries[i].id && r[i].important == entries[i].important &&
      r[i].userId == entries[i].userId
    ensures forall i :: 0 <= i < |r| && entries[i].id == id ==>
      r[i].title == title && r[i].body == body
    ensures forall i :: 0 <= i < |r| && entries[i].id != id ==> r[i] == entries[i]
    ensures !HasId(entries, id) ==> r == entries
  {
    Map(entries, (e: Entry) => if e.id == id then e.(title := title, body := body) else e)
  }

  /** `toggleImportant`: length and order are kept; an entry with the id has
      its flag flipped and nothing else changed; every other entry is left
      exactly as it was. */
  function ToggleImportant(entries: seq<Entry>, id: int): (r: seq<Entry>)
    ensures |r| == |entries|
    ensures forall i :: 0 <= i < |r| && entries[i].id == id ==>
      r[i] == entries[i].(important := !entries[i].important)
    ensures forall i :: 0 <= i < |r| && entries[i].id != id ==> r[i] == entries[i]
    ensures !HasId(entries, id) ==> r == entries
  {
    Map(entries, (e: Entry) => if e.id == id then e.(important := !e.important) else e)
  }

  /** `filteredEntries`: with the filter on, the important entries in their
      order and nothing else; with it off, the list itself. Either way a
      read-only view of `entries`. */
  function View(entries: seq<Entry>, filterImportant: bool): (r: seq<Entry>)
    ensures IsSubsequence(r, entries)
    ensures filterImportant ==> forall e :: e in r <==> e in entries && e.important
    ensures !filterImportant ==> r == entries
  {
    if filterImportant then
      Filter(entries, (e: Entry) => e.important)
    else
      SubsequenceReflexive(entries);
      entries
  }

  /** The ten built-in entries (`PRE_POPULATED_ENTRIES`): ids 1 to 10 in
      order, so no two alike, all owned by the placeholder user, and entries
      1, 4, 5 and 9 marked important. */
  function SeedEntries(): (r: seq<Entry>)
    ensures |r| == 10
    ensures forall i :: 0 <= i < |r| ==> r[i].id == i + 1 && r[i].userId == LocalUserId
    ensures forall i :: 0 <= i < |r| ==> (r[i].important <==> r[i].id in {1, 4, 5, 9})
    ensures DistinctIds(r)
  {
    [
      Entry(1, "New Beginnings", SeedBody1, true, 1),
      Entry(2, "Overwhelmed at Work", SeedBody2, false, 1),
      Entry(3, "Learning to Cook", SeedBody3, false, 1),
      Entry(4, "Coffee with Sarah", SeedBody4, true, 1),
      Entry(5, "Hiking at Blue Ridge", SeedBody5, true, 1),
      Entry(6, "Project Didn't Go as Planned", SeedBody6, false, 1),
      Entry(7, "Finally Organized My Desk", SeedBody7, false, 1),
      Entry(8, "Writing Struggle", SeedBody8, false, 1),
      Entry(9, "Rainy Sunday", SeedBody9, true, 1),
      Entry(10, "Three Good Things", SeedBody10, false, 1)
    ]
  }

  /** The bodies of the built-in entries, in order. */
  const SeedBody1: string :=
    "Woke up feeling refreshed today. The rain last night washed everything clean, and the air smells fresh. Been thinking about starting a morning routine - maybe some meditation and journaling. Need to find a better work-life balance. The constant notifications and emails are draining my energy. Starting with 10 minutes of quiet time before checking my phone.\n\nFeeling hopeful about the changes I want to make. Small steps forward are still progress."
  const SeedBody2: string :=
    "Another day of back-to-back meetings. The project deadline is looming and I feel like I'm falling behind. Had a difficult conversation with my manager about resource constraints. Need to prioritize better and learn to say no to additional tasks.\n\nTaking a walk during lunch helped clear my head. Remember: progress over perfection. One task at a time."
  const SeedBody3: string :=
    "Tried making pad thai from scratch tonight. It was... interesting. The noodles stuck together and I definitely used too much fish sauce. But it was edible! Cooking is harder than it looks on those cooking shows.\n\nThere's something satisfying about creating a meal, even if it's not perfect. Will try again next week with less fish sauce."
  const SeedBody4: string :=
    "Met Sarah for coffee after months of trying to coordinate schedules. It's amazing how we can pick up right where we left off. She's thinking about changing careers and we talked about taking risks and following passions.\n\nGood friends are like anchors in this chaotic world. Need to make more time for these connections."
  const SeedBody5: string :=
    "Hiked the Blue Ridge trail today. The view from the summit was breathtaking - layers of mountains fading into the horizon. Met an older couple who've been hiking there for 30 years. They said the trail changes every season but the peace remains the same.\n\nNature has a way of putting things in perspective. All my worries seemed smaller from up there."
  const SeedBody6: string :=
    "The client wasn't happy with our proposal. All that work and they want us to start over. Feeling frustrated but trying to see it as a learning opportunity. Maybe we weren't listening closely enough to what they really needed.\n\nFailure isn't the opposite of success - it's part of it. Back to the drawing board tomorrow."
  const SeedBody7: string :=
    "Cleared out the mountain of papers that had been accumulating for months. Found three pens that actually work and that important document I thought I'd lost. Such a small thing, but it feels like a weight has been lifted.\n\nSometimes the smallest tasks make the biggest difference in how I feel about my space and myself."
  const SeedBody8: string :=
    "Stared at a blank page for two hours today. The words just wouldn't come. Tried changing locations, making tea, even cleaning (desperate times). Nothing worked.\n\nMaybe some days are just for collecting experiences rather than creating from them. Tomorrow is another day."
  const SeedBody9: string :=
    "Spent the day reading with the sound of rain against the window. Made soup from scratch and actually followed a recipe for once. The house smelled amazing all afternoon.\n\nThese quiet, simple days are just as important as the exciting ones. Learning to appreciate the stillness."
  const SeedBody10: string :=
    "Today I'm grateful for:\n1. The way the sunlight came through the window this morning\n2. That random text from an old friend checking in\n3. Finding my favorite tea at the store\n\nIt's easy to focus on what's going wrong, but there's always something to appreciate if I look for it."

  /** One item of the placeholder API's post collection. */
  datatype Post = Post(userId: int, id: int, title: string, body: string)

  /** What `fetchEntries` gets back: the parsed post array, or a failure
      (the request rejected, the body not JSON, or not an array). */
  datatype FetchResult = FetchFailed | Fetched(posts: seq<Post>)

  /** How many posts `data.slice(0, 10)` keeps. */
  function Kept(posts: seq<Post>): (n: nat)
    ensures n <= FetchLimit && n <= |posts|
    ensures n == FetchLimit || n == |posts|
  {
    if |posts| < FetchLimit then |posts| else FetchLimit
  }

  /** The `slice`/`map` of a successful fetch: the first posts, in order,
      each with all its fields and with `important` set to the client's
      random draw for that position. */
  function FromPosts(posts: seq<Post>, flags: seq<bool>): (r: seq<Entry>)
    requires |flags| >= Kept(posts)
    ensures |r| <= FetchLimit && |r| == Kept(posts)
    ensures forall i :: 0 <= i < |r| ==>
      r[i].id == posts[i].id && r[i].title == posts[i].title &&
      r[i].body == posts[i].body && r[i].userId == posts[i].userId &&
      r[i].important == flags[i]
  {
    seq(Kept(posts), i requires 0 <= i < Kept(posts) =>
      Entry(posts[i].id, posts[i].title, posts[i].body, flags[i], posts[i].userId))
  }

  /** The list `fetchEntries` leaves behind: the converted posts on success,
      the built-in entries on failure; never more than ten entries. */
  function Fetch(result: FetchResult, flags: seq<bool>): (r: seq<Entry>)
    requires result.Fetched? ==> |flags| >= Kept(result.posts)
    ensures |r| <= FetchLimit
    ensures result.FetchFailed? ==> r == SeedEntries()
    ensures result.Fetched? ==> r == FromPosts(result.posts, flags)
    ensures result.Fetched? ==> |r| == Kept(result.posts)
    ensures result.Fetched? ==>
      forall i :: 0 <= i < |r| ==> r[i].id == result.posts[i].id && r[i].important == flags[i]
  {
    match result
    case FetchFailed => SeedEntries()
    case Fetched(posts) => FromPosts(posts, flags)
  }

  /** Toggling the same id twice gives back the list it started from. */
  lemma ToggleTwice(entries: seq<Entry>, id: int)
    ensures ToggleImportant(ToggleImportant(entries, id), id) == entries
  {
  }

  /** Saving the same edit twice is the same as saving it once. */
  lemma UpdateIdempotent(entries: seq<Entry>, id: int, title: string, body: string)
    ensures Update(Update(entries, id, title, body), id, title, body) == Update(entries, id, title, body)
  {
  }

  /** Deleting a freshly created entry by its id restores the old list,
      provided no older entry carried that id. */
  lemma DeleteUndoesCreate(entries: seq<Entry>, id: int, title: string, body: string)
    requires !HasId(entries, id)
    ensures Delete(Create(entries, id, title, body), id) == entries
  {
  }

  /** With distinct ids, deleting the id of the entry at position `k`
      removes exactly that entry and keeps the others in order. */
  lemma {:induction false} DeleteRemovesExactlyOne(entries: seq<Entry>, k: nat)
    requires DistinctIds(entries) && k < |entries|
    ensures Delete(entries, entries[k].id) == entries[..k] + entries[k + 1..]
  {
    if k == 0 {
      DeleteFirst(entries);
    } else {
      DistinctTail(entries);
      DeleteRemovesExactlyOne(entries[1..], k - 1);
      DeleteLater(entries, k);
    }
  }

  /** With distinct ids, deleting the first entry's id removes just the
      first entry. */
  lemma DeleteFirst(entries: seq<Entry>)
    requires DistinctIds(entries) && entries != []
    ensures Delete(entries, entries[0].id) == entries[1..]
  {
  }

  /** Deleting a later entry's id keeps the first entry in front. */
  lemma DeleteLater(entries: seq<Entry>, k: nat)
    requires 0 < k < |entries| && entries[0].id != entries[k].id
    requires Delete(entries[1..], entries[k].id) == entries[1..][..k - 1] + entries[1..][k..]
    ensures Delete(entries, entries[k].id) == entries[..k] + entries[k + 1..]
  {
  }

  /** One step of `Delete`: the head survives unless it carries the id. */
  lemma DeleteStep(entries: seq<Entry>, id: int)
    requires entries != []
    ensures Delete(entries, id) ==
      (if entries[0].id == id then [] else [entries[0]]) + Delete(entries[1..], id)
  {
  }

  /** Dropping the first entry keeps the ids distinct. */
  lemma DistinctTail(entries: seq<Entry>)
    requires DistinctIds(entries) && entries != []
    ensures DistinctIds(entries[1..])
  {
  }

  /** `Delete` drops every copy of an entry with the id and keeps every copy
      of every other entry. */
  lemma DeleteCounts(entries: seq<Entry>, id: int)
    ensures forall e ::
      multiset(Delete(entries, id))[e] == (if e.id == id then 0 else multiset(entries)[e])
  {
    FilterCounts(entries, (e: Entry) => e.id != id);
  }

  /** With the filter on, the view holds every copy of every important
      entry and nothing else. */
  lemma ImportantViewCounts(entries: seq<Entry>)
    ensures forall e ::
      multiset(View(entries, true))[e] == (if e.important then multiset(entries)[e] else 0)
  {
    FilterCounts(entries, (e: Entry) => e.important);
  }

  /** Prepending an entry whose id no other entry carries keeps ids distinct. */
  lemma DistinctCons(e: Entry, entries: seq<Entry>)
    requires DistinctIds(entries) && !HasId(entries, e.id)
    ensures DistinctIds([e] + entries)
  {
  }

  /** Creating with an id no entry carries yet keeps the ids distinct (the
      app takes the id from the clock and does not check this). */
  lemma CreateKeepsDistinctIds(entries: seq<Entry>, id: int, title: string, body: string)
    requires DistinctIds(entries) && !HasId(entries, id)
    ensures DistinctIds(Create(entries, id, title, body))
  {
  }

  /** Deleting never makes two entries share an id. */
  lemma {:induction false} DeleteKeepsDistinctIds(entries: seq<Entry>, id: int)
    requires DistinctIds(entries)
    ensures DistinctIds(Delete(entries, id))
  {
    if entries != [] {
      var rest := entries[1..];
      DistinctTail(entries);
      DeleteKeepsDistinctIds(rest, id);
      DeleteStep(entries, id);
      if entries[0].id != id {
        assert !HasId(Delete(rest, id), entries[0].id) by {
          forall e | e in Delete(rest, id) ensures e.id != entries[0].id {
            var j :| 0 <= j < |rest| && rest[j] == e;
            assert e == entries[j + 1];
          }
        }
        DistinctCons(entries[0], Delete(rest, id));
      }
    }
  }

  /** Editing and toggling keep every id where it was, so distinct ids stay
      distinct. */
  lemma MapsKeepDistinctIds(entries: seq<Entry>, id: int, title: string, body: string)
    requires DistinctIds(entries)
    ensures DistinctIds(Update(entries, id, title, body))
    ensures DistinctIds(ToggleImportant(entries, id))
  {
  }
}
