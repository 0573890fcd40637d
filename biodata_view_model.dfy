/**
  * The view model between the screen and the DAO: it validates and trims
  * what the screen submits, builds a record under the fixed id 1, and hands
  * it to the DAO's insert-or-replace. Its coroutine launches are modelled as
  * synchronous calls.
  */
module ViewModel {
  import opened Wrappers
  import opened Model
  import opened KotlinText
  import Dao

  /** The id the view model always gives the record (`id = 1`). */
  const FixedId: Int32 := 1

  /** The arguments of one `saveBiodata` call, untrimmed, as the screen passes them. */
  datatype SaveRequest = SaveRequest(
    name: string,
    nim: string,
    birthPlace: string,
    birthDate: string,
    address: string,
    photoUri: Option<string>)

  /**
    * The shape of every record the view model writes: id 1, a non-empty
    * `name` and `nim`, and no text field starting or ending with whitespace.
    */
  ghost predicate StoredForm(r: Biodataitem, ws: char -> bool)
  {
    && r.id == FixedId
    && r.name != [] && r.nim != []
    && HasNoOuterBlanks(r.name, ws) && HasNoOuterBlanks(r.nim, ws)
    && HasNoOuterBlanks(r.birthPlace, ws) && HasNoOuterBlanks(r.birthDate, ws)
    && HasNoOuterBlanks(r.address, ws)
  }

  /**
    * The record `saveBiodata` builds, or None when it returns early because
    * `name` or `nim` is blank. Only those two fields are validated; the
    * photo URI is passed through untouched.
    */
  function NewBiodata(req: SaveRequest, ws: char -> bool): (r: Option<Biodataitem>)
    ensures r.Some? <==> !IsBlank(req.name, ws) && !IsBlank(req.nim, ws)
    ensures r.Some? ==> StoredForm(r.value, ws)
    ensures r.Some? ==>
      && TrimsTo(req.name, r.value.name, ws) && TrimsTo(req.nim, r.value.nim, ws)
      && TrimsTo(req.birthPlace, r.value.birthPlace, ws)
      && TrimsTo(req.birthDate, r.value.birthDate, ws)
      && TrimsTo(req.address, r.value.address, ws)
      && r.value.photoUri == req.photoUri
  {
    if IsBlank(req.name, ws) || IsBlank(req.nim, ws) then
      None
    else
      BlankIffTrimEmpty(req.name, ws);
      BlankIffTrimEmpty(req.nim, ws);
      TrimHasNoOuterBlanks(req.name, ws);
      TrimHasNoOuterBlanks(req.nim, ws);
      TrimHasNoOuterBlanks(req.birthPlace, ws);
      TrimHasNoOuterBlanks(req.birthDate, ws);
      TrimHasNoOuterBlanks(req.address, ws);
      Some(Biodataitem(
        id := FixedId,
        name := Trim(req.name, ws),
        nim := Trim(req.nim, ws),
        birthPlace := Trim(req.birthPlace, ws),
        birthDate := Trim(req.birthDate, ws),
        address := Trim(req.address, ws),
        photoUri := req.photoUri))
  }

  /** The table after one `saveBiodata` call. */
  function AfterSave(t: Dao.Table, req: SaveRequest, ws: char -> bool): (t': Dao.Table)
    ensures NewBiodata(req, ws).None? ==> t' == t
    ensures NewBiodata(req, ws).Some? ==> Dao.SelectById(t', Dao.QueryId) == NewBiodata(req, ws)
    ensures forall k :: k != FixedId ==> (k in t' <==> k in t) && (k in t ==> t'[k] == t[k])
  {
    match NewBiodata(req, ws)
    case None => t
    case Some(r) => Dao.InsertOrReplace(t, r)
  }

  /** Every row of a table written only through the view model has the stored form. */
  ghost predicate WrittenByViewModel(t: Dao.Table, ws: char -> bool)
  {
    forall k :: k in t ==> k == FixedId && StoredForm(t[k], ws)
  }

  /** A blank `name` or `nim` makes the save a no-op, even on an empty table. */
  lemma BlankNameOrNimIsNoop(t: Dao.Table, req: SaveRequest, ws: char -> bool)
    requires IsBlank(req.name, ws) || IsBlank(req.nim, ws)
    ensures AfterSave(t, req, ws) == t
    ensures t == map[] ==> Dao.SelectById(AfterSave(t, req, ws), Dao.QueryId) == None
  {
  }

  /**
    * After an accepted save the query sees a record with id 1, the five text
    * fields trimmed, and the photo URI exactly as given (possibly absent).
    */
  lemma SavedRecordIsTrimmedInput(t: Dao.Table, req: SaveRequest, ws: char -> bool)
    requires !IsBlank(req.name, ws) && !IsBlank(req.nim, ws)
    ensures Dao.SelectById(AfterSave(t, req, ws), Dao.QueryId)
         == Some(Biodataitem(1, Trim(req.name, ws), Trim(req.nim, ws),
                             Trim(req.birthPlace, ws), Trim(req.birthDate, ws),
                             Trim(req.address, ws), req.photoUri))
  {
    var r := NewBiodata(req, ws).value;
    TrimUnique(req.name, r.name, ws);
    TrimUnique(req.nim, r.nim, ws);
    TrimUnique(req.birthPlace, r.birthPlace, ws);
    TrimUnique(req.birthDate, r.birthDate, ws);
    TrimUnique(req.address, r.address, ws);
  }

  /**
    * Only `name` and `nim` are validated: blank birth place, birth date or
    * address do not stop the save, and are stored as empty strings.
    */
  lemma BlankOptionalFieldsStoredEmpty(t: Dao.Table, req: SaveRequest, ws: char -> bool)
    requires !IsBlank(req.name, ws) && !IsBlank(req.nim, ws)
    ensures Dao.QueryId in AfterSave(t, req, ws)
    ensures var r := AfterSave(t, req, ws)[Dao.QueryId];
            && (IsBlank(req.birthPlace, ws) ==> r.birthPlace == [])
            && (IsBlank(req.birthDate, ws) ==> r.birthDate == [])
            && (IsBlank(req.address, ws) ==> r.address == [])
  {
    SavedRecordIsTrimmedInput(t, req, ws);
    BlankIffTrimEmpty(req.birthPlace, ws);
    BlankIffTrimEmpty(req.birthDate, ws);
    BlankIffTrimEmpty(req.address, ws);
  }

  /** Save A then save B (B accepted) leaves exactly what save B alone would: nothing of A survives. */
  lemma SaveReplaces(t: Dao.Table, a: SaveRequest, b: SaveRequest, ws: char -> bool)
    requires !IsBlank(b.name, ws) && !IsBlank(b.nim, ws)
    ensures AfterSave(AfterSave(t, a, ws), b, ws) == AfterSave(t, b, ws)
  {
    match NewBiodata(a, ws)
    case None =>
    case Some(ra) =>
      Dao.InsertReplacesSameKey(t, ra, NewBiodata(b, ws).value);
  }

  /** Two identical saves leave the same table as one. */
  lemma SaveIdempotent(t: Dao.Table, req: SaveRequest, ws: char -> bool)
    ensures AfterSave(AfterSave(t, req, ws), req, ws) == AfterSave(t, req, ws)
  {
    match NewBiodata(req, ws)
    case None =>
    case Some(r) =>
      Dao.InsertIdempotent(t, r);
  }

  /** A table written only through the view model keeps the stored form under saves and deletes. */
  lemma ViewModelInvariant(t: Dao.Table, req: SaveRequest, ws: char -> bool)
    requires WrittenByViewModel(t, ws)
    ensures WrittenByViewModel(AfterSave(t, req, ws), ws)
    ensures WrittenByViewModel(Dao.DeleteById(t, Dao.QueryId), ws)
  {
  }

  /** The empty table of a fresh database meets the view-model invariant. */
  lemma EmptyTableWrittenByViewModel(ws: char -> bool)
    ensures WrittenByViewModel(map[], ws)
  {
  }

  /**
    * The trimming example: with a space as whitespace and letters and digits
    * not, saving ("  Alice  ", "  007  ", "Jakarta", "1 Jan 2000", "Street 1")
    * stores the name "Alice" and the nim "007".
    */
  lemma TrimmingExample(t: Dao.Table, ws: char -> bool)
    requires ws(' ')
    requires forall c :: ('a' <= c <= 'z' || 'A' <= c <= 'Z' || '0' <= c <= '9') ==> !ws(c)
    ensures var saved := AfterSave(t, SaveRequest("  Alice  ", "  007  ", "Jakarta", "1 Jan 2000", "Street 1", None), ws);
            Dao.QueryId in saved && saved[Dao.QueryId].name == "Alice" && saved[Dao.QueryId].nim == "007"
  {
    var req := SaveRequest("  Alice  ", "  007  ", "Jakarta", "1 Jan 2000", "Street 1", None);
    assert !ws(req.name[2]) && !ws(req.nim[2]);
    assert TrimmedAt(req.name, 2, 7, ws) && req.name[2..7] == "Alice";
    assert TrimmedAt(req.nim, 2, 5, ws) && req.nim[2..5] == "007";
    TrimUnique(req.name, "Alice", ws);
    TrimUnique(req.nim, "007", ws);
    SavedRecordIsTrimmedInput(t, req, ws);
  }

  /** The view model; it reaches the table only through its DAO. */
  class BiodataViewModel {
    const biodataDao: Dao.BiodataDao
    /** Kotlin's `Char.isWhitespace`, which `isBlank` and `trim` use. */
    const isWhitespace: char -> bool

    ghost predicate Valid()
      reads biodataDao
    {
      biodataDao.Valid()
    }

    constructor (biodataDao: Dao.BiodataDao, isWhitespace: char -> bool)
      ensures this.biodataDao == biodataDao && this.isWhitespace == isWhitespace
      ensures biodataDao.Valid() ==> Valid()
    {
      this.biodataDao := biodataDao;
      this.isWhitespace := isWhitespace;
    }

    /** `biodata`: the DAO's query, passed through. */
    method Biodata() returns (biodata: Option<Biodataitem>)
      requires Valid()
      ensures biodata == Dao.SelectById(biodataDao.table, Dao.QueryId)
    {
      biodata := biodataDao.GetBiodata();
    }

    /**
      * `saveBiodata`: returns early when `name` or `nim` is blank, otherwise
      * writes the trimmed record under id 1 through the DAO.
      */
    method SaveBiodata(name: string, nim: string, birthPlace: string, birthDate: string,
                       address: string, photoUri: Option<string>)
      requires Valid()
      modifies biodataDao
      ensures Valid()
      ensures biodataDao.table
           == AfterSave(old(biodataDao.table),
                        SaveRequest(name, nim, birthPlace, birthDate, address, photoUri), isWhitespace)
      ensures WrittenByViewModel(old(biodataDao.table), isWhitespace)
          ==> WrittenByViewModel(biodataDao.table, isWhitespace)
    {
      ghost var req := SaveRequest(name, nim, birthPlace, birthDate, address, photoUri);
      if WrittenByViewModel(biodataDao.table, isWhitespace) {
        ViewModelInvariant(biodataDao.table, req, isWhitespace);
      }
      if IsBlank(name, isWhitespace) || IsBlank(nim, isWhitespace) {
        return;
      }
      var newBiodata := Biodataitem(
        id := FixedId,
        name := Trim(name, isWhitespace),
        nim := Trim(nim, isWhitespace),
        birthPlace := Trim(birthPlace, isWhitespace),
        birthDate := Trim(birthDate, isWhitespace),
        address := Trim(address, isWhitespace),
        photoUri := photoUri);
      biodataDao.SaveBiodata(newBiodata);
    }

    /** `deleteBiodata`: always delegates to the DAO's delete. */
    method DeleteBiodata()
      requires Valid()
      modifies biodataDao
      ensures Valid()
      ensures biodataDao.table == Dao.DeleteById(old(biodataDao.table), Dao.QueryId)
      ensures Dao.SelectById(biodataDao.table, Dao.QueryId) == None
      ensures WrittenByViewModel(old(biodataDao.table), isWhitespace)
          ==> WrittenByViewModel(biodataDao.table, isWhitespace)
    {
      biodataDao.DeleteBiodata();
    }
  }

  /** Budi's fields have no whitespace at their ends, so saving them stores them unchanged. */
  lemma BudiExample(ws: char -> bool)
    requires forall c :: ('a' <= c <= 'z' || 'A' <= c <= 'Z' || '0' <= c <= '9') ==> !ws(c)
    ensures Dao.SelectById(AfterSave(map[], SaveRequest("Budi", "12345", "Bandung", "5 Mei 1999", "Jl. Merdeka", None), ws), Dao.QueryId)
         == Some(Biodataitem(1, "Budi", "12345", "Bandung", "5 Mei 1999", "Jl. Merdeka", None))
  {
    var req := SaveRequest("Budi", "12345", "Bandung", "5 Mei 1999", "Jl. Merdeka", None);
    assert HasNoOuterBlanks(req.name, ws) by { assert !ws('B') && !ws('i'); }
    assert HasNoOuterBlanks(req.nim, ws) by { assert !ws('1') && !ws('5'); }
    assert HasNoOuterBlanks(req.birthPlace, ws) by { assert !ws('B') && !ws('g'); }
    assert HasNoOuterBlanks(req.birthDate, ws) by { assert !ws('5') && !ws('9'); }
    assert HasNoOuterBlanks(req.address, ws) by { assert !ws('J') && !ws('a'); }
    TrimKeepsTrimmed(req.name, ws);
    TrimKeepsTrimmed(req.nim, ws);
    TrimKeepsTrimmed(req.birthPlace, ws);
    TrimKeepsTrimmed(req.birthDate, ws);
    TrimKeepsTrimmed(req.address, ws);
    BlankIffTrimEmpty(req.name, ws);
    BlankIffTrimEmpty(req.nim, ws);
    SavedRecordIsTrimmedInput(map[], req, ws);
  }

  /**
    * A client session on a fresh database: save Budi's record, read it back,
    * delete it, read again. With letters and digits not counted as
    * whitespace, the first read returns the record as submitted and the
    * second returns null.
    */
  method SaveReadDeleteRead(ws: char -> bool) returns (afterSave: Option<Biodataitem>, afterDelete: Option<Biodataitem>)
    requires forall c :: ('a' <= c <= 'z' || 'A' <= c <= 'Z' || '0' <= c <= '9') ==> !ws(c)
    ensures afterSave == Some(Biodataitem(1, "Budi", "12345", "Bandung", "5 Mei 1999", "Jl. Merdeka", None))
    ensures afterDelete == None
  {
    var dao := new Dao.BiodataDao();
    var viewModel := new BiodataViewModel(dao, ws);
    viewModel.SaveBiodata("Budi", "12345", "Bandung", "5 Mei 1999", "Jl. Merdeka", None);
    BudiExample(ws);
    afterSave := viewModel.Biodata();
    viewModel.DeleteBiodata();
    afterDelete := viewModel.Biodata();
  }
}
