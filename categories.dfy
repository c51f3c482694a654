/**
 * A user's categories: creation with defaults, renaming, and deletion, with
 * the two rules the handlers enforce: no two categories of a user share a
 * name up to letter case, and a category that bills still name cannot be
 * deleted. The collection is a value; each handler returns its outcome and,
 * on success, the new collection.
 */
module Categories {
  import opened Wrappers
  import opened Text
  import opened Sequences
  import opened Bills

  datatype Category = Category(id: Id, owner: Id, name: string, color: string, icon: string)

  const DefaultColor: string := "#3b82f6"
  const DefaultIcon: string := "\U{1F4C1}"

  /** `/^#[0-9A-Fa-f]{6}$/`. */
  predicate IsHexColor(s: string) {
    |s| == 7 && s[0] == '#' && forall i :: 1 <= i < 7 ==> IsHexDigit(s[i])
  }

  /** The case folding a case-insensitive regular expression applies to basic Latin and Latin-1 letters. */
  function FoldChar(c: char): char {
    if 'A' <= c <= 'Z' || ('\U{00C0}' <= c <= '\U{00DE}' && c != '\U{00D7}') then (c as int + 32) as char else c
  }

  function FoldCase(s: string): (r: string)
    ensures |r| == |s|
    ensures forall i :: 0 <= i < |s| ==> r[i] == FoldChar(s[i])
  {
    if s == [] then [] else [FoldChar(s[0])] + FoldCase(s[1..])
  }

  /** `new RegExp('^' + b + '$', 'i').test(a)` for a name without pattern characters. */
  predicate SameNameIgnoringCase(a: string, b: string) {
    FoldCase(a) == FoldCase(b)
  }

  /** Some category of `owner`, other than `except`, has the name `name` up to letter case. */
  predicate NameTaken(store: seq<Category>, owner: Id, name: string, except: Option<Id>) {
    exists i :: 0 <= i < |store| && store[i].owner == owner && SameNameIgnoringCase(store[i].name, name)
                && (except.Some? ==> store[i].id != except.value)
  }

  /** Ids are unique, and no two categories of one user have names equal up to case. */
  predicate WellFormed(store: seq<Category>) {
    && (forall i, j :: 0 <= i < j < |store| ==> store[i].id != store[j].id)
    && (forall i, j :: 0 <= i < j < |store| && store[i].owner == store[j].owner ==>
          !SameNameIgnoringCase(store[i].name, store[j].name))
  }

  datatype Outcome =
    | Saved(store: seq<Category>, category: Category)
    | Removed(store: seq<Category>)
    | Invalid
    | NotFound
    | Conflict
    | InUse(count: nat)
    | ServerError

  /** The HTTP status each outcome is answered with. */
  function StatusCode(o: Outcome, creating: bool): int {
    match o
    case Saved(_, _) => if creating then 201 else 200
    case Removed(_) => 200
    case Invalid => 400
    case NotFound => 404
    case Conflict => 409
    case InUse(_) => 400
    case ServerError => 500
  }

  /**
   * The validation chain of creation and renaming: the trimmed name, the
   * colour and the icon. `isLength` counts code points, one per `char`.
   */
  predicate ValidFields(name: Option<string>, color: Option<string>, icon: Option<string>) {
    && (name.Some? ==> 2 <= |Trim(name.value)| <= 50)
    && (color.Some? ==> IsHexColor(color.value))
    && (icon.Some? ==> 1 <= |icon.value| <= 10)
  }

  /**
   * The schema's `maxlength: 50` on the name, checked by `save()`. It counts
   * UTF-16 code units, so a name that passed the route's length check can
   * still be refused here; the handler answers that with 500.
   */
  predicate SchemaAcceptsName(name: string) {
    Utf16Length(name) <= 50
  }

  /** `POST /api/categories`; `newId` is the id the database assigns. */
  function Create(store: seq<Category>, owner: Id, name: string, color: Option<string>, icon: Option<string>, newId: Id): (o: Outcome)
    ensures o.Invalid? <==> !ValidFields(Some(name), color, icon)
    ensures o.Conflict? <==> ValidFields(Some(name), color, icon) && NameTaken(store, owner, Trim(name), None)
    ensures o.ServerError? <==>
              ValidFields(Some(name), color, icon) && !NameTaken(store, owner, Trim(name), None) && !SchemaAcceptsName(Trim(name))
    ensures o.Saved? || o.Invalid? || o.Conflict? || o.ServerError?
    ensures o.Saved? ==>
              && o.category == Category(newId, owner, Trim(name), color.GetOr(DefaultColor), icon.GetOr(DefaultIcon))
              && o.store == store + [o.category]
              && SchemaAcceptsName(o.category.name)
  {
    if !ValidFields(Some(name), color, icon) then Invalid
    else if NameTaken(store, owner, Trim(name), None) then Conflict
    else if !SchemaAcceptsName(Trim(name)) then ServerError
    else
      var c := Category(newId, owner, Trim(name), color.GetOr(DefaultColor), icon.GetOr(DefaultIcon));
      Saved(store + [c], c)
  }

  /** The position of the category with this id that belongs to `owner`. */
  function Find(store: seq<Category>, owner: Id, id: Id): (r: Option<nat>)
    ensures r.Some? ==> r.value < |store| && store[r.value].id == id && store[r.value].owner == owner
    ensures r.None? ==> forall i :: 0 <= i < |store| ==> !(store[i].id == id && store[i].owner == owner)
  {
    if store == [] then None
    else if store[0].id == id && store[0].owner == owner then Some(0)
    else
      var r := Find(store[1..], owner, id);
      if r.Some? then Some(r.value + 1) else None
  }

  /**
   * `PATCH /api/categories/:id`: a new name must not clash with another of the
   * user's categories. `save()` checks the schema on the name only when the
   * name changed, so an unchanged name is never refused there.
   */
  function Update(store: seq<Category>, owner: Id, id: Id, name: Option<string>, color: Option<string>, icon: Option<string>): (o: Outcome)
    ensures o.Invalid? <==> !IsObjectId(id) || !ValidFields(name, color, icon)
    ensures o.NotFound? <==> IsObjectId(id) && ValidFields(name, color, icon) && Find(store, owner, id).None?
    ensures o.Saved? || o.Invalid? || o.NotFound? || o.Conflict? || o.ServerError?
    ensures o.Conflict? ==> name.Some? && NameTaken(store, owner, Trim(name.value), Some(id))
    ensures o.ServerError? ==>
              && Find(store, owner, id).Some? && name.Some?
              && Trim(name.value) != store[Find(store, owner, id).value].name
              && !NameTaken(store, owner, Trim(name.value), Some(id))
              && !SchemaAcceptsName(Trim(name.value))
    ensures IsObjectId(id) && ValidFields(name, color, icon) && Find(store, owner, id).Some? && name.Some?
            && Trim(name.value) != store[Find(store, owner, id).value].name
            && !NameTaken(store, owner, Trim(name.value), Some(id)) && !SchemaAcceptsName(Trim(name.value)) ==>
              o.ServerError?
    ensures o.Saved? ==>
              var k := Find(store, owner, id).value;
              && o.category == Category(id, owner,
                                        if name.Some? then Trim(name.value) else store[k].name,
                                        color.GetOr(store[k].color), icon.GetOr(store[k].icon))
              && o.store == store[k := o.category]
              && (name.Some? && Trim(name.value) != store[k].name ==>
                    !NameTaken(store, owner, Trim(name.value), Some(id)) && SchemaAcceptsName(o.category.name))
  {
    if !IsObjectId(id) || !ValidFields(name, color, icon) then Invalid
    else
      match Find(store, owner, id)
      case None => NotFound
      case Some(k) =>
        var cur := store[k];
        if name.Some? && Trim(name.value) != "" && Trim(name.value) != cur.name
           && NameTaken(store, owner, Trim(name.value), Some(id)) then Conflict
        else if name.Some? && Trim(name.value) != cur.name && !SchemaAcceptsName(Trim(name.value)) then ServerError
        else
          var c := Category(id, owner, if name.Some? then Trim(name.value) else cur.name,
                            color.GetOr(cur.color), icon.GetOr(cur.icon));
          Saved(store[k := c], c)
  }

  /** A bill of `owner` filed under exactly `name`. */
  predicate Uses(owner: Id, name: string, b: Bill) {
    b.owner == owner && b.category == Some(name)
  }

  function UsersOf(bills: seq<Bill>, owner: Id, name: string): seq<Bill> {
    Filter(bills, b => Uses(owner, name, b))
  }

  predicate HasOtherId(id: Id, c: Category) {
    c.id != id
  }

  /** The collection without the category with this id. */
  function Without(store: seq<Category>, id: Id): (r: seq<Category>)
    ensures forall i :: 0 <= i < |r| ==> r[i] in store && r[i].id != id
    ensures forall i :: 0 <= i < |store| && store[i].id != id ==> store[i] in r
  {
    Filter(store, c => HasOtherId(id, c))
  }

  /** `DELETE /api/categories/:id`: refused while any of the user's bills is filed under the category's name. */
  function Delete(store: seq<Category>, bills: seq<Bill>, owner: Id, id: Id): (o: Outcome)
    ensures o.Invalid? <==> !IsObjectId(id)
    ensures o.NotFound? <==> IsObjectId(id) && Find(store, owner, id).None?
    ensures o.Removed? || o.Invalid? || o.NotFound? || o.InUse?
    ensures o.InUse? ==> o.count > 0 && o.count == |UsersOf(bills, owner, store[Find(store, owner, id).value].name)|
    ensures o.Removed? ==>
              var c := store[Find(store, owner, id).value];
              && o.store == Without(store, id)
              && forall i :: 0 <= i < |bills| ==> !Uses(owner, c.name, bills[i])
  {
    if !IsObjectId(id) then Invalid
    else
      match Find(store, owner, id)
      case None => NotFound
      case Some(k) =>
        var n := |UsersOf(bills, owner, store[k].name)|;
        if n > 0 then InUse(n) else Removed(Without(store, id))
  }

  // ---------------------------------------------------------------------------
  // The uniqueness invariant

  /**
   * A name of 26 to 50 characters outside the Basic Multilingual Plane, such
   * as 26 emoji, passes the route's check counted in code points but is 52 to
   * 100 UTF-16 units long, so `save()` refuses it and creation answers 500.
   */
  lemma AstralNameRefusedOnSave(store: seq<Category>, owner: Id, name: string, newId: Id)
    requires 26 <= |name| <= 50 && forall i :: 0 <= i < |name| ==> name[i] > '\U{FFFF}'
    requires !NameTaken(store, owner, name, None)
    ensures ValidFields(Some(name), None, None) && !SchemaAcceptsName(name)
    ensures Create(store, owner, name, None, None, newId) == ServerError
  {
    assert !IsJsWhitespace(name[0]) && !IsJsWhitespace(name[|name| - 1]);
    TrimUnpadded(name);
  }

  /** Creation keeps names unique up to case for a fresh id. */
  lemma CreatePreservesWellFormed(store: seq<Category>, owner: Id, name: string, color: Option<string>, icon: Option<string>, newId: Id)
    requires WellFormed(store)
    requires forall i :: 0 <= i < |store| ==> store[i].id != newId
    ensures var o := Create(store, owner, name, color, icon, newId); o.Saved? ==> WellFormed(o.store)
  {
    var o := Create(store, owner, name, color, icon, newId);
    if o.Saved? {
      var s := o.store;
      forall i, j | 0 <= i < j < |s| && s[i].owner == s[j].owner
        ensures !SameNameIgnoringCase(s[i].name, s[j].name)
      {
        if j == |store| {
          assert s[i] == store[i];
          assert !(store[i].owner == owner && SameNameIgnoringCase(store[i].name, Trim(name)));
        }
      }
    }
  }

  /** Renaming or recolouring keeps names unique up to case. */
  lemma UpdatePreservesWellFormed(store: seq<Category>, owner: Id, id: Id, name: Option<string>, color: Option<string>, icon: Option<string>)
    requires WellFormed(store)
    ensures var o := Update(store, owner, id, name, color, icon); o.Saved? ==> WellFormed(o.store)
  {
    var o := Update(store, owner, id, name, color, icon);
    if o.Saved? {
      var k := Find(store, owner, id).value;
      var s, c := o.store, o.category;
      assert s == store[k := c] && c.id == id && c.owner == owner;
      assert c.name != store[k].name ==> !NameTaken(store, owner, c.name, Some(id));
      forall i, j | 0 <= i < j < |s| && s[i].owner == s[j].owner
        ensures !SameNameIgnoringCase(s[i].name, s[j].name)
      {
        if (i == k || j == k) && s[k].name != store[k].name {
          var other := if i == k then j else i;
          assert store[other].id != id && s[other] == store[other];
          var renamed := s[k].name;
          assert !(store[other].id != id && store[other].owner == owner && SameNameIgnoringCase(store[other].name, renamed));
        }
      }
    }
  }

  /** Two categories that may sit in one collection: different ids, and names that differ up to case within a user. */
  predicate Compatible(a: Category, b: Category) {
    a.id != b.id && (a.owner == b.owner ==> !SameNameIgnoringCase(a.name, b.name))
  }

  lemma WellFormedIsPairwise(store: seq<Category>)
    ensures WellFormed(store) <==> Pairwise(store, Compatible)
  {
  }

  /** Dropping one id keeps both uniqueness conditions. */
  lemma WithoutKeepsWellFormed(store: seq<Category>, id: Id)
    requires WellFormed(store)
    ensures WellFormed(Without(store, id))
  {
    WellFormedIsPairwise(store);
    FilterPairwise(store, c => HasOtherId(id, c), Compatible);
    WellFormedIsPairwise(Without(store, id));
  }

  /** Deleting keeps both uniqueness conditions. */
  lemma DeletePreservesWellFormed(store: seq<Category>, bills: seq<Bill>, owner: Id, id: Id)
    requires WellFormed(store)
    ensures var o := Delete(store, bills, owner, id); o.Removed? ==> WellFormed(o.store)
  {
    WithoutKeepsWellFormed(store, id);
  }
}
