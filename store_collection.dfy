/** The admin page's operations on the store list, as functions of the list:
    add (a new record with the next id), update (merge the form into the record
    being edited) and delete (keep every record with another id). */
module StoreCollection {
  import opened Wrappers
  import opened StoreModel
  import Slug
  import Seqs

  /** No two records share an id. */
  predicate UniqueIds(stores: seq<Store>) {
    forall i, j :: 0 <= i < |stores| && 0 <= j < |stores| && i != j ==> stores[i].id != stores[j].id
  }

  /** Some record has the id. */
  predicate HasId(stores: seq<Store>, id: int) {
    exists i :: 0 <= i < |stores| && stores[i].id == id
  }

  /** `Math.max(...stores.map(s => s.id))` on a non-empty list. */
  function MaxId(stores: seq<Store>): (m: int)
    requires |stores| > 0
    ensures forall i :: 0 <= i < |stores| ==> stores[i].id <= m
    ensures HasId(stores, m)
    decreases |stores|
  {
    if |stores| == 1 then stores[0].id
    else
      var rest := MaxId(stores[1..]);
      assert forall i :: 1 <= i < |stores| ==> stores[i] == stores[1..][i - 1];
      if stores[0].id >= rest then stores[0].id else rest
  }

  /** The record `handleSubmit` builds in add mode. Text the form lacks or has
      empty defaults to `''` (state to Karnataka, working hours to
      10 AM to 10 PM, coordinates to 0); an empty slug is generated from the
      name; the form's photos are not carried over. */
  function NewStore(stores: seq<Store>, f: Form): (s: Store)
    requires |stores| > 0
    ensures s.id == MaxId(stores) + 1
    ensures forall i :: 0 <= i < |stores| ==> stores[i].id < s.id
    ensures s.name == OrElse(f.name, "")
    ensures OrElse(f.slug, "") == "" ==> s.slug == Slug.Slug(s.name)
    ensures OrElse(f.slug, "") != "" ==> s.slug == f.slug.value
    ensures s.address == OrElse(f.address, "") && s.city == OrElse(f.city, "")
    ensures OrElse(f.state, "") == "" ==> s.state == DefaultState
    ensures OrElse(f.state, "") != "" ==> s.state == f.state.value
    ensures s.pincode == OrElse(f.pincode, "") && s.phone == OrElse(f.phone, "")
    ensures s.email == OrElse(f.email, "")
    ensures s.lat == OrElse(f.lat, "0") && s.lng == OrElse(f.lng, "0")
    ensures f.tags.None? ==> s.tags == []
    ensures f.tags.Some? ==> s.tags == f.tags.value
    ensures OrElse(f.workingHours, "") == "" ==> s.workingHours == Some(DefaultWorkingHours)
    ensures OrElse(f.workingHours, "") != "" ==> s.workingHours == f.workingHours
    ensures s.openedDate == Some(OrElse(f.openedDate, ""))
    ensures s.placeId == Some(OrElse(f.placeId, ""))
    ensures s.photos.None?
  {
    var name := OrElse(f.name, "");
    Store(MaxId(stores) + 1, name, OrElse(f.slug, Slug.Slug(name)), OrElse(f.address, ""),
          OrElse(f.city, ""), OrElse(f.state, DefaultState), OrElse(f.pincode, ""),
          OrElse(f.phone, ""), OrElse(f.email, ""), OrElse(f.lat, "0"), OrElse(f.lng, "0"),
          f.tags.GetOr([]), Some(OrElse(f.workingHours, DefaultWorkingHours)),
          Some(OrElse(f.openedDate, "")), Some(OrElse(f.placeId, "")), None)
  }

  /** `[...prev, newStore]`. */
  function Added(stores: seq<Store>, f: Form): (r: seq<Store>)
    requires |stores| > 0
    ensures |r| == |stores| + 1 && r[..|stores|] == stores
    ensures r[|stores|] == NewStore(stores, f)
  {
    stores + [NewStore(stores, f)]
  }

  /** `prev.map(store => store.id === editing.id ? { ...editing, ...f } : store)`. */
  function Updated(stores: seq<Store>, editing: Store, f: Form): (r: seq<Store>)
    ensures |r| == |stores|
    ensures forall i :: 0 <= i < |stores| && stores[i].id == editing.id ==> r[i] == Merge(editing, f)
    ensures forall i :: 0 <= i < |stores| && stores[i].id != editing.id ==> r[i] == stores[i]
  {
    seq(|stores|, i requires 0 <= i < |stores| =>
      if stores[i].id == editing.id then Merge(editing, f) else stores[i])
  }

  /** `prev.filter(store => store.id !== id)`. */
  function Deleted(stores: seq<Store>, id: int): (r: seq<Store>)
    ensures Seqs.Subsequence(r, stores)
    ensures !HasId(r, id)
    ensures forall s: Store :: s in r <==> s in stores && s.id != id
    ensures forall s: Store :: s.id != id ==> multiset(r)[s] == multiset(stores)[s]
  {
    var r := Seqs.Filter(stores, (s: Store) => s.id != id);
    assert forall i :: 0 <= i < |r| ==> r[i].id != id by {
      forall i | 0 <= i < |r| ensures r[i].id != id {
        assert r[i] in r;
      }
    }
    r
  }

  /** Adding keeps the ids unique: the new id exceeds every existing one. */
  lemma AddKeepsUnique(stores: seq<Store>, f: Form)
    requires |stores| > 0 && UniqueIds(stores)
    ensures UniqueIds(Added(stores, f))
  {
    AppendFresh(stores, NewStore(stores, f));
  }

  /** Appending a record whose id exceeds every listed id keeps ids unique. */
  lemma AppendFresh(stores: seq<Store>, s: Store)
    requires UniqueIds(stores)
    requires forall i :: 0 <= i < |stores| ==> stores[i].id < s.id
    ensures UniqueIds(stores + [s])
  {
    var r := stores + [s];
    forall i, j | 0 <= i < |r| && 0 <= j < |r| && i != j ensures r[i].id != r[j].id {
      if i < |stores| && j < |stores| {
        assert r[i] == stores[i] && r[j] == stores[j];
      } else if i < |stores| {
        assert r[i] == stores[i];
      } else {
        assert r[j] == stores[j];
      }
    }
  }

  /** The id of a merged record is the form's id when it has one. */
  predicate FormKeepsId(editing: Store, f: Form) {
    f.id.None? || f.id.value == editing.id
  }

  /** An update whose form keeps the edited id leaves every record's id as it
      was, so unique ids stay unique. */
  lemma UpdatePreservesIds(stores: seq<Store>, editing: Store, f: Form)
    requires FormKeepsId(editing, f)
    ensures var r := Updated(stores, editing, f);
      forall i :: 0 <= i < |stores| ==> r[i].id == stores[i].id
    ensures UniqueIds(stores) ==> UniqueIds(Updated(stores, editing, f))
  {
    var r := Updated(stores, editing, f);
    assert forall i :: 0 <= i < |stores| ==> r[i].id == stores[i].id;
  }

  /** The list after `handleSubmit`: the update of the edited record in edit
      mode, the list with a new record otherwise. */
  function Submitted(stores: seq<Store>, editing: Option<Store>, f: Form): seq<Store>
    requires editing.None? ==> |stores| > 0
  {
    if editing.Some? then Updated(stores, editing.value, f) else Added(stores, f)
  }

  /** Submitting keeps the ids unique, in either mode. */
  lemma SubmitKeepsUnique(stores: seq<Store>, editing: Option<Store>, f: Form)
    requires editing.None? ==> |stores| > 0
    requires editing.Some? ==> FormKeepsId(editing.value, f)
    ensures UniqueIds(stores) ==> UniqueIds(Submitted(stores, editing, f))
  {
    if editing.Some? {
      UpdatePreservesIds(stores, editing.value, f);
    } else if UniqueIds(stores) {
      AddKeepsUnique(stores, f);
    }
  }

  /** Submitting the untouched edit form of a listed record changes nothing. */
  lemma UpdateUntouched(stores: seq<Store>, editing: Store)
    requires UniqueIds(stores) && editing in stores
    ensures Updated(stores, editing, FormOf(editing)) == stores
  {
    var r := Updated(stores, editing, FormOf(editing));
    MergeFormOf(editing);
    var k :| 0 <= k < |stores| && stores[k] == editing;
    forall i | 0 <= i < |stores| ensures r[i] == stores[i] {
      if stores[i].id == editing.id {
        assert i == k;
      }
    }
  }

  /** Deleting an id no record has changes nothing. */
  lemma DeleteAbsent(stores: seq<Store>, id: int)
    requires !HasId(stores, id)
    ensures Deleted(stores, id) == stores
  {
    Seqs.FilterAll(stores, (s: Store) => s.id != id);
  }

  /** Deleting keeps the ids unique. */
  lemma DeletePreservesUnique(stores: seq<Store>, id: int)
    requires UniqueIds(stores)
    ensures UniqueIds(Deleted(stores, id))
  {
    SubsequenceUnique(Deleted(stores, id), stores);
  }

  /** Every subsequence of a list with unique ids has unique ids. */
  lemma {:induction false} SubsequenceUnique(a: seq<Store>, b: seq<Store>)
    requires Seqs.Subsequence(a, b) && UniqueIds(b)
    ensures UniqueIds(a)
    decreases |b|
  {
    if a != [] && b != [] {
      assert UniqueIds(b[1..]) by {
        assert forall i :: 0 <= i < |b| - 1 ==> b[1..][i] == b[i + 1];
      }
      if a[0] == b[0] && Seqs.Subsequence(a[1..], b[1..]) {
        SubsequenceUnique(a[1..], b[1..]);
        SubsequenceMembers(a[1..], b[1..]);
        forall i, j | 0 <= i < |a| && 0 <= j < |a| && i != j ensures a[i].id != a[j].id {
          if i == 0 {
            assert a[j] in b[1..];
          } else if j == 0 {
            assert a[i] in b[1..];
          } else {
            assert a[i] == a[1..][i - 1] && a[j] == a[1..][j - 1];
          }
        }
      } else {
        SubsequenceUnique(a, b[1..]);
      }
    }
  }

  /** The elements of a subsequence occur in the sequence. */
  lemma {:induction false} SubsequenceMembers(a: seq<Store>, b: seq<Store>)
    requires Seqs.Subsequence(a, b)
    ensures forall x :: x in a ==> x in b
    decreases |b|
  {
    if a != [] && b != [] {
      if a[0] == b[0] && Seqs.Subsequence(a[1..], b[1..]) {
        SubsequenceMembers(a[1..], b[1..]);
        assert a == [a[0]] + a[1..];
      } else {
        SubsequenceMembers(a, b[1..]);
      }
    }
  }
}
