/** The admin product page (`src/pages/admin/HomePage.jsx`): paging through the listing, the
    create-product form kept as a JavaScript object, the multipart body built from it, and
    what a create does afterwards. */
module AdminHome {
  import opened Wrappers
  import opened Http
  import Catalog

  /* ------------------------------------------------------------ paging */

  /** `nextPage`: one page on, with no upper bound. */
  function NextPage(c: Catalog.CatalogState, reply: Reply<Catalog.Listing>): (r: (Catalog.CatalogState, seq<Effect>))
    ensures r.0.page == c.page + 1
    ensures r.1 == [Catalog.ListingRequest(c.(page := c.page + 1))]
  {
    Catalog.Set(c, Catalog.SetPage(c.page + 1), reply)
  }

  /** `prevPage`: one page back, with no lower bound. */
  function PrevPage(c: Catalog.CatalogState, reply: Reply<Catalog.Listing>): (r: (Catalog.CatalogState, seq<Effect>))
    ensures r.0.page == c.page - 1
    ensures r.1 == [Catalog.ListingRequest(c.(page := c.page - 1))]
  {
    Catalog.Set(c, Catalog.SetPage(c.page - 1), reply)
  }

  /** `page !== 1`. */
  predicate ShowPrev(c: Catalog.CatalogState) {
    c.page != 1
  }

  /** `page !== totalPages`. */
  predicate ShowNext(c: Catalog.CatalogState) {
    c.page != c.totalPages
  }

  /** What the grid shows. */
  datatype Grid = Spinner | Cards(products: seq<Catalog.Product>) | NoProducts

  function ShowGrid(c: Catalog.CatalogState): (g: Grid)
    ensures c.loading <==> g == Spinner
    ensures g.Cards? ==> g.products == c.products && |c.products| > 0
    ensures g == NoProducts <==> !c.loading && |c.products| == 0
  {
    if c.loading then Spinner
    else if |c.products| > 0 then Cards(c.products)
    else NoProducts
  }

  /* ------------------------------------------------------------ the form object */

  /** A form value: the text of an input, or the chosen files (`null` before any choice). */
  datatype Value = Text(s: string) | Files(files: Option<seq<string>>)

  /** One own property of the form object; the object is its properties in insertion order. */
  datatype Entry = Entry(key: string, value: Value)

  /** The text inputs: each input's `name` is its property. */
  const TextInputs: set<string> := {"title", "description", "category", "price", "stock"}

  const Blank: seq<Entry> := [
    Entry("title", Text("")), Entry("description", Text("")), Entry("category", Text("")),
    Entry("price", Text("")), Entry("stock", Text("")), Entry("images", Files(None))]

  /** The object written back after a create: its third key is spelled `categroy`. */
  const ResetForm: seq<Entry> := [
    Entry("title", Text("")), Entry("description", Text("")), Entry("categroy", Text("")),
    Entry("price", Text("")), Entry("stock", Text("")), Entry("images", Files(None))]

  /** The value of a property, None when the object has no such property. */
  function Get(form: seq<Entry>, key: string): (r: Option<Value>)
    ensures r.Some? <==> exists i :: 0 <= i < |form| && form[i].key == key
    ensures r.Some? ==> Entry(key, r.value) in form
    decreases |form|
  {
    if |form| == 0 then None
    else if form[0].key == key then Some(form[0].value)
    else Get(form[1..], key)
  }

  /** Property names occur once, as in any JavaScript object. */
  predicate UniqueKeys(form: seq<Entry>) {
    forall i, j :: 0 <= i < j < |form| ==> form[i].key != form[j].key
  }

  /** Only the `images` property holds files. */
  predicate FilesOnlyInImages(form: seq<Entry>) {
    forall i :: 0 <= i < |form| ==> (form[i].value.Files? <==> form[i].key == "images")
  }

  predicate WellFormed(form: seq<Entry>) {
    UniqueKeys(form) && FilesOnlyInImages(form)
  }

  /** `{ ...prev, [key]: v }`: an existing property keeps its place and takes the new value; a
      new one is added at the end. */
  function Put(form: seq<Entry>, key: string, v: Value): (r: seq<Entry>)
    ensures Get(form, key).Some? ==> |r| == |form| && forall i :: 0 <= i < |form| ==> r[i].key == form[i].key
    ensures Get(form, key).None? ==> r == form + [Entry(key, v)]
    decreases |form|
  {
    if |form| == 0 then [Entry(key, v)]
    else if form[0].key == key then [Entry(key, v)] + form[1..]
    else
      var rest := Put(form[1..], key, v);
      assert ([form[0]] + rest)[1..] == rest;
      [form[0]] + rest
  }

  /** After a `Put` the key reads the new value and every other key reads what it did. */
  lemma {:induction false} PutGet(form: seq<Entry>, key: string, v: Value, k: string)
    ensures Get(Put(form, key, v), key) == Some(v)
    ensures k != key ==> Get(Put(form, key, v), k) == Get(form, k)
    decreases |form|
  {
    if |form| > 0 && form[0].key != key {
      PutGet(form[1..], key, v, k);
      assert ([form[0]] + Put(form[1..], key, v))[1..] == Put(form[1..], key, v);
    } else if |form| > 0 {
      assert ([Entry(key, v)] + form[1..])[1..] == form[1..];
    }
  }

  /** `Put` keeps an object well formed when the value's kind suits the key. */
  lemma PutKeepsWellFormed(form: seq<Entry>, key: string, v: Value)
    requires WellFormed(form)
    requires v.Files? <==> key == "images"
    ensures WellFormed(Put(form, key, v))
  {
    var r := Put(form, key, v);
    if Get(form, key).None? {
      assert forall i :: 0 <= i < |form| ==> form[i].key != key;
      assert r == form + [Entry(key, v)];
    } else {
      forall i | 0 <= i < |r|
        ensures r[i].value.Files? <==> r[i].key == "images"
      {
        PutEntry(form, key, v, i);
      }
    }
  }

  /** Each property after a `Put` on an existing key is the old one, or the key with its new
      value. */
  lemma {:induction false} PutEntry(form: seq<Entry>, key: string, v: Value, i: nat)
    requires Get(form, key).Some? && i < |form|
    ensures |Put(form, key, v)| == |form|
    ensures Put(form, key, v)[i] == form[i] || Put(form, key, v)[i] == Entry(key, v)
    decreases |form|
  {
    if form[0].key != key && i > 0 {
      PutEntry(form[1..], key, v, i - 1);
    }
  }

  /** `handleChange` on one of the text inputs: that property takes the input's text, and
      every other property reads as before. */
  function HandleChange(form: seq<Entry>, name: string, value: string): (r: seq<Entry>)
    requires name in TextInputs
    ensures Get(r, name) == Some(Text(value))
    ensures forall k :: k != name ==> Get(r, k) == Get(form, k)
  {
    var r := Put(form, name, Text(value));
    PutGet(form, name, Text(value), name);
    forall k | k != name
      ensures Get(r, k) == Get(form, k)
    {
      PutGet(form, name, Text(value), k);
    }
    r
  }

  /** `handleFileChange`: `images` holds the chosen files, and every other property reads as
      before. */
  function HandleFileChange(form: seq<Entry>, files: seq<string>): (r: seq<Entry>)
    ensures Get(r, "images") == Some(Files(Some(files)))
    ensures forall k :: k != "images" ==> Get(r, k) == Get(form, k)
  {
    var r := Put(form, "images", Files(Some(files)));
    PutGet(form, "images", Files(Some(files)), "images");
    forall k | k != "images"
      ensures Get(r, k) == Get(form, k)
    {
      PutGet(form, "images", Files(Some(files)), k);
    }
    r
  }

  /** The chosen files, None while `images` is absent or `null`. */
  function Images(form: seq<Entry>): (r: Option<seq<string>>)
    ensures r.Some? <==> Get(form, "images").Some? && Get(form, "images").value.Files? && Get(form, "images").value.files.Some?
    ensures r.Some? ==> Get(form, "images") == Some(Files(r))
  {
    match Get(form, "images")
    case Some(Files(Some(fs))) => Some(fs)
    case _ => None
  }

  /* ------------------------------------------------------------ the multipart body */

  function EntryParts(e: Entry): seq<Field> {
    match e.value
    case Text(s) => [Field(e.key, s)]
    case Files(Some(fs)) => FileParts(fs)
    case Files(None) => []
  }

  /** `Object.entries(formData).forEach(...)`: the parts in property order, each file under
      "files" and every other property under its own name. */
  function Parts(form: seq<Entry>): (r: seq<Field>)
    decreases |form|
  {
    if |form| == 0 then [] else EntryParts(form[0]) + Parts(form[1..])
  }

  /** The parts named `name`, in order. */
  function Named(parts: seq<Field>, name: string): (r: seq<Field>)
    ensures forall p :: p in r <==> p in parts && p.name == name
    decreases |parts|
  {
    if |parts| == 0 then []
    else if parts[0].name == name then [parts[0]] + Named(parts[1..], name)
    else Named(parts[1..], name)
  }

  lemma {:induction false} NamedAppend(a: seq<Field>, b: seq<Field>, name: string)
    ensures Named(a + b, name) == Named(a, name) + Named(b, name)
    decreases |a|
  {
    if |a| > 0 {
      assert (a + b)[1..] == a[1..] + b;
      NamedAppend(a[1..], b, name);
    } else {
      assert a + b == b;
    }
  }

  /** A text property is sent under its own name with its value, and every part that is not a
      file is such a property. */
  lemma {:induction false} TextPartsMatchForm(form: seq<Entry>, key: string, s: string)
    requires FilesOnlyInImages(form)
    ensures Field(key, s) in Parts(form) && key != "files" <==> Entry(key, Text(s)) in form && key != "files"
    decreases |form|
  {
    if |form| > 0 {
      assert FilesOnlyInImages(form[1..]) by {
        forall i | 0 <= i < |form[1..]|
          ensures form[1..][i].value.Files? <==> form[1..][i].key == "images"
        {
          assert form[1..][i] == form[i + 1];
        }
      }
      TextPartsMatchForm(form[1..], key, s);
      assert form == [form[0]] + form[1..];
      match form[0].value
      case Text(t) =>
      case Files(o) =>
        if o.Some? {
          assert forall p :: p in EntryParts(form[0]) ==> p.name == "files";
        }
    }
  }

  /** An object without an `images` property contributes no file part. */
  lemma {:induction false} NoFilesWithoutImages(form: seq<Entry>)
    requires FilesOnlyInImages(form)
    requires forall i :: 0 <= i < |form| ==> form[i].key != "images" && form[i].key != "files"
    ensures Named(Parts(form), "files") == []
    decreases |form|
  {
    if |form| > 0 {
      NoFilesWithoutImages(form[1..]);
      NamedAppend(EntryParts(form[0]), Parts(form[1..]), "files");
    }
  }

  /** The file parts are exactly the chosen files, in order, when no text property is named
      "files". */
  lemma {:induction false} FilePartsAreImages(form: seq<Entry>, files: seq<string>)
    requires WellFormed(form)
    requires forall i :: 0 <= i < |form| ==> form[i].key != "files"
    requires Images(form) == Some(files)
    ensures Named(Parts(form), "files") == FileParts(files)
    decreases |form|
  {
    NamedAppend(EntryParts(form[0]), Parts(form[1..]), "files");
    if form[0].key == "images" {
      NoFilesWithoutImages(form[1..]);
      assert Named(FileParts(files), "files") == FileParts(files) by {
        NamedAll(FileParts(files), "files");
      }
    } else {
      assert Get(form[1..], "images") == Get(form, "images");
      FilePartsAreImages(form[1..], files);
    }
  }

  /** Filtering parts that all carry the name keeps them all. */
  lemma {:induction false} NamedAll(parts: seq<Field>, name: string)
    requires forall i :: 0 <= i < |parts| ==> parts[i].name == name
    ensures Named(parts, name) == parts
    decreases |parts|
  {
    if |parts| > 0 {
      NamedAll(parts[1..], name);
    }
  }

  /* ------------------------------------------------------------ creating a product */

  const CreatePath := "/api/product/new"
  const NoImages := "Please select images"

  /** The page's own state: the dialog flag and the form object. */
  datatype HomeState = HomeState(open: bool, form: seq<Entry>)

  const Initial := HomeState(false, Blank)

  /** `submitHandler`. Without files it only complains. Otherwise it posts the multipart body.
      On success it toasts, closes the dialog and writes the reset object back, and then calls
      `fetchProducts`, which the product context does not provide: the call throws, and the
      catch block, reading `error.response.data` of that TypeError, throws again. */
  function Create(s: HomeState, write: Reply<Ack>): (r: (HomeState, seq<Effect>))
    ensures Images(s.form).None? || Images(s.form).value == [] ==> r == (s, [Toast(ErrorToast, NoImages)])
    ensures Images(s.form).Some? && Images(s.form).value != [] ==>
      |r.1| > 0 && r.1[0] == Request(Post, CreatePath, Parts(s.form))
    ensures Images(s.form).Some? && Images(s.form).value != [] && write.Ok? ==>
      r.0 == HomeState(false, ResetForm) && r.1[|r.1| - 1] == Uncaught
    ensures write.Fail? ==> r.0 == s
  {
    var files := Images(s.form);
    if files.None? || files.value == [] then (s, [Toast(ErrorToast, NoImages)])
    else
      var post := Request(Post, CreatePath, Parts(s.form));
      match write
      case Ok(a) => (HomeState(false, ResetForm), [post, Toast(SuccessToast, a.message), Uncaught])
      case Fail(f) => (s, [post, ServerError(f)])
  }

  /* ------------------------------------------------------------ properties */

  /** On the first page of one, neither paging control shows. */
  lemma FirstOfOneHidesPaging()
    ensures !ShowPrev(Catalog.Initial) && !ShowNext(Catalog.Initial)
  {
  }

  /** Inside the page range, the shown controls keep the page inside it. */
  lemma ShownControlsStayInRange(c: Catalog.CatalogState, reply: Reply<Catalog.Listing>)
    requires 1 <= c.page <= c.totalPages
    ensures ShowPrev(c) ==> 1 <= PrevPage(c, reply).0.page <= c.totalPages
    ensures ShowNext(c) ==> 1 <= NextPage(c, reply).0.page <= c.totalPages
  {
  }

  /** Past the last page, "next" stays on and leads further away: a listing that keeps its
      page count never brings the page back into range. */
  lemma PastLastPageRunsAway(c: Catalog.CatalogState, l: Catalog.Listing)
    requires c.page > c.totalPages && l.totalPages == c.totalPages
    ensures ShowNext(c)
    ensures var n := NextPage(c, Ok(l)).0;
      ShowNext(n) && n.page > n.totalPages
  {
  }

  /** A text input changes its own property and nothing else, and keeps the object well
      formed. */
  lemma ChangeTouchesOnlyItsField(form: seq<Entry>, name: string, value: string)
    requires WellFormed(form) && name in TextInputs
    ensures Get(HandleChange(form, name, value), name) == Some(Text(value))
    ensures forall k :: k != name ==> Get(HandleChange(form, name, value), k) == Get(form, k)
    ensures WellFormed(HandleChange(form, name, value))
  {
    PutKeepsWellFormed(form, name, Text(value));
  }

  /** Creating needs at least one file: an object without files never reaches the server. */
  lemma CreateNeedsFiles(s: HomeState, write: Reply<Ack>)
    requires Images(s.form).None? || Images(s.form).value == []
    ensures forall e :: e in Create(s, write).1 ==> !e.Request?
    ensures Create(s, write).0 == s
  {
  }

  /** No property of the object is named "files". */
  predicate NoFilesKey(form: seq<Entry>) {
    forall i :: 0 <= i < |form| ==> form[i].key != "files"
  }

  /** Keys with pairwise different first letters, none of them 'f', make an object with
      unique keys and no "files" property. */
  lemma {:induction false} DistinctHeads(form: seq<Entry>, heads: seq<char>)
    requires |heads| == |form|
    requires forall i :: 0 <= i < |form| ==> |form[i].key| > 0 && form[i].key[0] == heads[i]
    requires forall i, j :: 0 <= i < j < |heads| ==> heads[i] != heads[j]
    requires 'f' !in heads
    ensures UniqueKeys(form) && NoFilesKey(form)
  {
    forall i | 0 <= i < |form|
      ensures form[i].key != "files"
    {
      assert form[i].key[0] == heads[i];
      assert heads[i] in heads;
    }
  }

  /** The initial object is well formed and has no "files" property. */
  lemma BlankWellFormed()
    ensures WellFormed(Blank) && NoFilesKey(Blank)
  {
    DistinctHeads(Blank, ['t', 'd', 'c', 'p', 's', 'i']);
  }

  /** So is the object written back after a create. */
  lemma ResetWellFormed()
    ensures WellFormed(ResetForm) && NoFilesKey(ResetForm)
  {
    DistinctHeads(ResetForm, ['t', 'd', 'c', 'p', 's', 'i']);
  }

  /** A `Put` under any key but "files" adds no "files" property. */
  lemma PutKeepsNoFilesKey(form: seq<Entry>, key: string, v: Value)
    requires NoFilesKey(form) && key != "files"
    ensures NoFilesKey(Put(form, key, v))
  {
  }

  /** The body of a create: after choosing files and typing a title and a price into a well
      formed object, the file parts are the chosen files in order, and each of the two inputs
      goes under its own name. */
  lemma FormBody(form: seq<Entry>, files: seq<string>, title: string, price: string)
    requires WellFormed(form) && NoFilesKey(form)
    ensures var f := HandleChange(HandleChange(HandleFileChange(form, files), "title", title), "price", price);
      && Named(Parts(f), "files") == FileParts(files)
      && Field("title", title) in Parts(f)
      && Field("price", price) in Parts(f)
  {
    var f1 := HandleFileChange(form, files);
    PutKeepsWellFormed(form, "images", Files(Some(files)));
    PutKeepsNoFilesKey(form, "images", Files(Some(files)));
    var f2 := HandleChange(f1, "title", title);
    PutKeepsWellFormed(f1, "title", Text(title));
    PutKeepsNoFilesKey(f1, "title", Text(title));
    var f := HandleChange(f2, "price", price);
    PutKeepsWellFormed(f2, "price", Text(price));
    PutKeepsNoFilesKey(f2, "price", Text(price));
    assert Images(f) == Some(files);
    FilePartsAreImages(f, files);
    TextPartsMatchForm(f, "title", title);
    TextPartsMatchForm(f, "price", price);
  }

  /** The body built from the blank object, with only files chosen, carries category "". On
      the page the `required` select stops that submit before `submitHandler` runs; this is a
      fact about the body builder. */
  lemma BlankSendsEmptyCategory(files: seq<string>)
    ensures Field("category", "") in Parts(HandleFileChange(Blank, files))
  {
    BlankWellFormed();
    var f := HandleFileChange(Blank, files);
    PutKeepsWellFormed(Blank, "images", Files(Some(files)));
    assert Get(Blank, "category") == Some(Text(""));
    assert Get(f, "category") == Some(Text(""));
    TextPartsMatchForm(f, "category", "");
  }

  /** The reset object has no `category` property, only the misspelt one: the next create
      sends no "category" part unless a category is chosen again, and choosing one adds the
      property at the end, after the files. */
  lemma ResetLosesCategory(files: seq<string>, category: string)
    ensures Get(ResetForm, "category").None? && Get(ResetForm, "categroy") == Some(Text(""))
    ensures forall p :: p in Parts(HandleFileChange(ResetForm, files)) ==> p.name != "category"
    ensures HandleChange(ResetForm, "category", category) == ResetForm + [Entry("category", Text(category))]
  {
    ResetKeys();
    ResetPartsLackCategory(files);
  }

  /** Choosing files for the reset object adds no `category` part to its body. */
  lemma ResetPartsLackCategory(files: seq<string>)
    ensures forall p :: p in Parts(HandleFileChange(ResetForm, files)) ==> p.name != "category"
  {
    ResetKeys();
    ResetWellFormed();
    AbsentKeySendsNothing(ResetForm, files, "category");
  }

  /** A text property the object lacks sends no part once files are chosen. */
  lemma AbsentKeySendsNothing(form: seq<Entry>, files: seq<string>, key: string)
    requires WellFormed(form) && Get(form, key).None? && key != "files" && key != "images"
    ensures forall p :: p in Parts(HandleFileChange(form, files)) ==> p.name != key
  {
    var f := HandleFileChange(form, files);
    PutKeepsWellFormed(form, "images", Files(Some(files)));
    assert Get(f, key).None?;
    forall p | p in Parts(f)
      ensures p.name != key
    {
      TextPartsMatchForm(f, key, p.value);
    }
  }

  /** The reset object has a `categroy` property and no `category` property: the two names
      differ in their sixth letter, and every other key differs from both in its first. */
  lemma ResetKeys()
    ensures Get(ResetForm, "category").None? && Get(ResetForm, "categroy") == Some(Text(""))
  {
    forall i | 0 <= i < |ResetForm|
      ensures ResetForm[i].key != "category"
    {
      if i == 2 {
        assert ResetForm[i].key[5] != "category"[5];
      } else {
        assert ResetForm[i].key[0] != 'c';
      }
    }
    assert ResetForm[2..] == [ResetForm[2]] + ResetForm[3..];
  }

  lemma CreateNeverRefetches(s: HomeState, a: Ack, c: Catalog.CatalogState)
    requires Images(s.form).Some? && Images(s.form).value != []
    ensures "fetchProducts" !in Catalog.Exported
    ensures Catalog.ListingRequest(c) !in Create(s, Ok(a)).1
    ensures Create(s, Ok(a)).0 == HomeState(false, ResetForm)
  {
    Catalog.RefetchNotExported();
  }
}
