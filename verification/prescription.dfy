/**
 * The prescription page: the file-type gate, the keyword validator over the
 * recognised text, product matching by name, the stored file name, and the
 * submit flow that records the verdict and may add the requested product to
 * the cart. Text recognition itself is an input.
 */
module Prescription {
  import opened Common
  import opened Catalog
  import opened Cart

  /** The selected file: its MIME type and its name. */
  datatype FileInfo = FileInfo(mimeType: string, name: string)

  datatype VerificationResult = VerificationResult(success: bool, message: string)

  datatype PageState = PageState(
    file: Option<FileInfo>,
    result: Option<VerificationResult>,
    matches: seq<Product>,
    extractedText: string)

  const InitialPage := PageState(None, None, [], "")

  predicate AcceptedType(mimeType: string) {
    mimeType == "application/pdf" || IsPrefix("image/", mimeType)
  }

  /** `handleFileChange`: an accepted file replaces the old one and clears the result and matches. */
  function ChooseFile(s: PageState, chosen: Option<FileInfo>): (r: PageState)
    ensures chosen.Some? && AcceptedType(chosen.value.mimeType) ==>
      r == s.(file := chosen, result := None, matches := [])
    ensures chosen.None? || !AcceptedType(chosen.value.mimeType) ==> r == s
  {
    if chosen.Some? && AcceptedType(chosen.value.mimeType) then s.(file := chosen, result := None, matches := []) else s
  }

  /** A few concrete MIME types against the gate. */
  lemma FileTypeExamples()
    ensures AcceptedType("application/pdf") && AcceptedType("image/png")
    ensures !AcceptedType("text/plain") && !AcceptedType("application/msword")
  {
    assert "image/png"[..6] == "image/";
    assert "text/plain"[..6][0] != "image/"[0];
    assert "application/msword"[..6][0] != "image/"[0];
  }

  // ---------------------------------------------------------------------
  // The validator and the matcher
  // ---------------------------------------------------------------------

  const RequiredKeywords: seq<string> := ["prescription", "doctor", "medication"]

  datatype Validation = Validation(isValid: bool, foundKeywords: seq<string>)

  lemma SplitThree<T>(a: T, b: T, c: T)
    ensures [a, b, c] == [a] + ([b] + [c])
  {
  }

  lemma FilterOne<T(!new)>(a: T, p: T -> bool)
    ensures Filter([a], p) == if p(a) then [a] else []
  {
    assert [a][1..] == [];
  }

  lemma FilterOfSplit<T(!new)>(a: T, b: T, c: T, p: T -> bool)
    ensures Filter([a] + ([b] + [c]), p) == Filter([a], p) + (Filter([b], p) + Filter([c], p))
  {
    FilterConcat([a], [b] + [c], p);
    FilterConcat([b], [c], p);
  }

  /** Filtering a three-element list, spelled out. */
  lemma FilterThree<T(!new)>(a: T, b: T, c: T, p: T -> bool)
    ensures Filter([a, b, c], p) == (if p(a) then [a] else []) + ((if p(b) then [b] else []) + (if p(c) then [c] else []))
  {
    SplitThree(a, b, c);
    FilterOfSplit(a, b, c, p);
    FilterOne(a, p);
    FilterOne(b, p);
    FilterOne(c, p);
  }

  function KeywordIn(text: string): string -> bool {
    (k: string) => Contains(text, k)
  }

  /** `validatePrescription`: the required keywords the text contains, in their fixed order. */
  function ValidatePrescription(text: string): (v: Validation)
    ensures v.foundKeywords ==
      (if Contains(text, "prescription") then ["prescription"] else []) +
      ((if Contains(text, "doctor") then ["doctor"] else []) +
       (if Contains(text, "medication") then ["medication"] else []))
    ensures v.isValid <==>
      (Contains(text, "prescription") && Contains(text, "doctor")) ||
      (Contains(text, "prescription") && Contains(text, "medication")) ||
      (Contains(text, "doctor") && Contains(text, "medication"))
  {
    var found := Filter(RequiredKeywords, KeywordIn(text));
    FilterThree("prescription", "doctor", "medication", KeywordIn(text));
    Validation(|found| >= 2, found)
  }

  /** One keyword alone never validates. */
  lemma OneKeywordIsNotEnough(text: string)
    requires Contains(text, "doctor") && !Contains(text, "prescription") && !Contains(text, "medication")
    ensures !ValidatePrescription(text).isValid
    ensures ValidatePrescription(text).foundKeywords == ["doctor"]
  {
  }

  /** `sub` occurs somewhere in `s`. */
  ghost predicate Occurs(s: string, sub: string) {
    exists i :: OccursAt(s, sub, i)
  }

  function NameIn(text: string): Product -> bool {
    (p: Product) => Contains(text, Lower(p.name))
  }

  /** `findMatchingProducts`: products whose lower-cased name occurs in the text; a failed query gives none. */
  function FindMatchingProducts(text: string, store: Option<seq<Product>>): (r: seq<Product>)
    ensures store.None? ==> r == []
    ensures store.Some? ==> forall p :: p in r <==> p in store.value && Occurs(text, Lower(p.name))
    ensures store.Some? ==> multiset(r) <= multiset(store.value)
  {
    match store
    case None => []
    case Some(products) =>
      MatchedNamesOccur(text, products);
      Filter(products, NameIn(text))
  }

  lemma MatchedNamesOccur(text: string, products: seq<Product>)
    ensures forall p :: p in Filter(products, NameIn(text)) <==> p in products && Occurs(text, Lower(p.name))
  {
    forall p: Product ensures p in Filter(products, NameIn(text)) <==> p in products && Occurs(text, Lower(p.name)) {
      assert NameIn(text)(p) == Contains(text, Lower(p.name));
      ContainsIffOccurs(text, Lower(p.name));
    }
  }

  /** Matching keeps the table's order: it distributes over concatenation. */
  lemma MatchingKeepsStoreOrder(text: string, a: seq<Product>, b: seq<Product>)
    ensures FindMatchingProducts(text, Some(a + b)) == FindMatchingProducts(text, Some(a)) + FindMatchingProducts(text, Some(b))
  {
    FilterConcat(a, b, NameIn(text));
  }

  /** Matching is case-insensitive in the product name, because the text is already lower case. */
  lemma MatchIgnoresNameCase(text: string, p: Product, q: Product, store: seq<Product>)
    requires Lower(p.name) == Lower(q.name) && p in store && q in store
    ensures p in FindMatchingProducts(text, Some(store)) <==> q in FindMatchingProducts(text, Some(store))
  {
  }

  // ---------------------------------------------------------------------
  // The stored file and the record
  // ---------------------------------------------------------------------

  /** The storage path: user id, "/", timestamp, ".", and the text after the name's last dot. */
  function StoredFileName(userId: Id, stamp: string, name: string): (r: string)
    ensures IsPrefix(userId + "/" + stamp + ".", r)
    ensures var ext := r[|userId + "/" + stamp + "."|..];
      '.' !in ext && |ext| <= |name| && name[|name| - |ext|..] == ext
  {
    var r := userId + "/" + stamp + "." + AfterLast(name, '.');
    assert r[..|userId + "/" + stamp + "."|] == userId + "/" + stamp + ".";
    assert r[|userId + "/" + stamp + "."|..] == AfterLast(name, '.');
    r
  }

  /** A name without a dot becomes the whole "extension". */
  lemma DotlessNameIsKeptWhole(userId: Id, stamp: string, name: string)
    requires '.' !in name
    ensures StoredFileName(userId, stamp, name) == userId + "/" + stamp + "." + name
  {
    var ext := AfterLast(name, '.');
    assert |ext| == |name|;
    assert name[|name| - |ext|..] == name;
  }

  datatype PrescriptionRecord = PrescriptionRecord(userId: Id, fileUrl: string, medicineName: string, status: string)

  /** What the page was opened with from a product card. */
  datatype Requested = Requested(productId: Option<Id>, productName: Option<string>)

  /** The replies of the calls the submit makes; OCR is None when recognition fails. */
  datatype Replies = Replies(ocr: Option<string>, uploadOk: bool, recordOk: bool,
                             products: Option<seq<Product>>, cartOk: bool)

  datatype SubmitOutcome = NoFileSelected | NotLoggedIn | ProcessingFailed | Verified | Invalid

  /** `uploads` holds the paths stored in the prescriptions bucket. */
  datatype SubmitResult = SubmitResult(
    outcome: SubmitOutcome,
    page: PageState,
    uploads: seq<string>,
    records: seq<PrescriptionRecord>,
    cart: seq<CartRow>)

  function JoinKeywords(ks: seq<string>): string
    decreases |ks|
  {
    if |ks| == 0 then "" else if |ks| == 1 then ks[0] else ks[0] + ", " + JoinKeywords(ks[1..])
  }

  /**
   * `handleSubmit`. `stamp` stands for the clock; `freshId` for the new cart
   * row's id; `uploads`, `records` and `cart` are the bucket and the two
   * tables before the call.
   */
  function Submit(s: PageState, user: Option<Id>, req: Requested, rep: Replies, stamp: string, freshId: Id,
                  uploads: seq<string>, records: seq<PrescriptionRecord>, cart: seq<CartRow>): (r: SubmitResult)
    ensures s.file.None? ==> r == SubmitResult(NoFileSelected, s, uploads, records, cart)
    ensures s.file.Some? && user.None? ==> r == SubmitResult(NotLoggedIn, s.(matches := []), uploads, records, cart)
    ensures s.file.Some? && user.Some? && rep.ocr.Some? && rep.uploadOk ==>
      r.uploads == uploads + [StoredFileName(user.value, stamp, s.file.value.name)]
    ensures !(s.file.Some? && user.Some? && rep.ocr.Some? && rep.uploadOk) ==> r.uploads == uploads
    ensures r.outcome != Verified && r.outcome != Invalid ==> r.records == records && r.cart == cart
    ensures r.outcome == Verified || r.outcome == Invalid ==>
      s.file.Some? && user.Some? && rep.ocr.Some? && rep.uploadOk && rep.recordOk &&
      var text := Lower(rep.ocr.value);
      var v := ValidatePrescription(text);
      (r.outcome == Verified <==> v.isValid) &&
      r.records == records + [PrescriptionRecord(user.value, StoredFileName(user.value, stamp, s.file.value.name),
                                                 OrElse(req.productName, "general"),
                                                 if v.isValid then "verified" else "rejected")] &&
      r.page.matches == FindMatchingProducts(text, rep.products) &&
      r.page.extractedText == text &&
      r.page.result.Some? && (r.page.result.value.success <==> v.isValid)
    ensures r.outcome == Verified && Truthy(req.productId) && rep.cartOk ==>
      r.cart == cart + [CartRow(freshId, user.value, req.productId.value, 1)]
    ensures r.outcome == Verified && !(Truthy(req.productId) && rep.cartOk) ==> r.cart == cart
    ensures r.outcome == Invalid ==> r.cart == cart
    ensures r.outcome == ProcessingFailed ==> r.page.result == Some(VerificationResult(false, "Failed to process prescription"))
    ensures s.file.Some? && user.Some? && rep.ocr.Some? && rep.uploadOk && rep.recordOk ==>
      r.outcome == Verified || r.outcome == Invalid
    ensures s.file.Some? && user.Some? && !(rep.ocr.Some? && rep.uploadOk && rep.recordOk) ==>
      r.outcome == ProcessingFailed && r.records == records && r.cart == cart
  {
    if s.file.None? then SubmitResult(NoFileSelected, s, uploads, records, cart)
    else
      var s1 := s.(matches := []);
      if user.None? then SubmitResult(NotLoggedIn, s1, uploads, records, cart)
      else if rep.ocr.None? then
        SubmitResult(ProcessingFailed, s1.(result := Some(VerificationResult(false, "Failed to process prescription"))),
                     uploads, records, cart)
      else
        var uid := user.value;
        var s2 := s1.(extractedText := Lower(rep.ocr.value));
        if !rep.uploadOk then
          SubmitResult(ProcessingFailed, s2.(result := Some(VerificationResult(false, "Failed to process prescription"))),
                       uploads, records, cart)
        else
          var stored := uploads + [StoredFileName(uid, stamp, s.file.value.name)];
          if !rep.recordOk then
            SubmitResult(ProcessingFailed, s2.(result := Some(VerificationResult(false, "Failed to process prescription"))),
                         stored, records, cart)
          else Conclude(s2, uid, s.file.value.name, req, rep, stamp, freshId, stored, records, cart)
  }

  /**
   * An accepted file is what the next submit works on: it is not refused
   * for want of a file, and a successful upload stores it under its own
   * name's extension. A refused file leaves the next submit as it was.
   */
  lemma ChosenFileIsSubmitted(s: PageState, chosen: Option<FileInfo>, user: Option<Id>, req: Requested, rep: Replies,
                              stamp: string, freshId: Id, uploads: seq<string>, records: seq<PrescriptionRecord>,
                              cart: seq<CartRow>)
    ensures var r := Submit(ChooseFile(s, chosen), user, req, rep, stamp, freshId, uploads, records, cart);
      chosen.Some? && AcceptedType(chosen.value.mimeType) ==>
        r.outcome != NoFileSelected &&
        (user.Some? && rep.ocr.Some? && rep.uploadOk ==>
           r.uploads == uploads + [StoredFileName(user.value, stamp, chosen.value.name)])
    ensures chosen.None? || !AcceptedType(chosen.value.mimeType) ==>
      Submit(ChooseFile(s, chosen), user, req, rep, stamp, freshId, uploads, records, cart) ==
      Submit(s, user, req, rep, stamp, freshId, uploads, records, cart)
  {
  }

  /** The end of a submit whose upload and record insert succeeded: the verdict, the matches and the cart line. */
  function Conclude(s: PageState, uid: Id, fileName: string, req: Requested, rep: Replies, stamp: string, freshId: Id,
                    uploads: seq<string>, records: seq<PrescriptionRecord>, cart: seq<CartRow>): (r: SubmitResult)
    ensures r.uploads == uploads
    ensures var v := ValidatePrescription(s.extractedText);
      (r.outcome == Verified <==> v.isValid) && (r.outcome == Invalid <==> !v.isValid) &&
      r.records == records + [PrescriptionRecord(uid, StoredFileName(uid, stamp, fileName), OrElse(req.productName, "general"),
                                                 if v.isValid then "verified" else "rejected")] &&
      r.page.matches == FindMatchingProducts(s.extractedText, rep.products) &&
      r.page.extractedText == s.extractedText && r.page.file == s.file &&
      r.page.result.Some? && (r.page.result.value.success <==> v.isValid)
    ensures r.outcome == Verified && Truthy(req.productId) && rep.cartOk ==>
      r.cart == cart + [CartRow(freshId, uid, req.productId.value, 1)]
    ensures !(r.outcome == Verified && Truthy(req.productId) && rep.cartOk) ==> r.cart == cart
  {
    var text := s.extractedText;
    var v := ValidatePrescription(text);
    var record := PrescriptionRecord(uid, StoredFileName(uid, stamp, fileName), OrElse(req.productName, "general"),
                                     if v.isValid then "verified" else "rejected");
    var matches := FindMatchingProducts(text, rep.products);
    var s3 := s.(matches := matches);
    if v.isValid then
      var cart' := if Truthy(req.productId) && rep.cartOk then cart + [CartRow(freshId, uid, req.productId.value, 1)] else cart;
      var message := if |matches| > 0 then "Prescription verified successfully. We found matching medicines!"
                     else "Prescription verified successfully.";
      SubmitResult(Verified, s3.(result := Some(VerificationResult(true, message))), uploads, records + [record], cart')
    else
      var message := "Invalid prescription. Missing required elements. Found keywords: " + JoinKeywords(v.foundKeywords);
      SubmitResult(Invalid, s3.(result := Some(VerificationResult(false, message))), uploads, records + [record], cart)
  }

  /**
   * The upload comes before the record insert, so a failed insert leaves
   * the file in the bucket with no record pointing at it.
   */
  lemma FailedInsertLeavesUpload(s: PageState, uid: Id, req: Requested, rep: Replies, stamp: string, freshId: Id,
                                 uploads: seq<string>, records: seq<PrescriptionRecord>, cart: seq<CartRow>)
    requires s.file.Some? && rep.ocr.Some? && rep.uploadOk && !rep.recordOk
    requires forall i :: 0 <= i < |records| ==> records[i].fileUrl != StoredFileName(uid, stamp, s.file.value.name)
    ensures var r := Submit(s, Some(uid), req, rep, stamp, freshId, uploads, records, cart);
      var path := StoredFileName(uid, stamp, s.file.value.name);
      r.outcome == ProcessingFailed && r.uploads == uploads + [path] &&
      forall i :: 0 <= i < |r.records| ==> r.records[i].fileUrl != path
  {
  }

  /** A submit that writes a record has stored exactly one file, and the record points at it. */
  lemma RecordPointsAtUpload(s: PageState, user: Option<Id>, req: Requested, rep: Replies, stamp: string,
                             freshId: Id, uploads: seq<string>, records: seq<PrescriptionRecord>, cart: seq<CartRow>)
    ensures var r := Submit(s, user, req, rep, stamp, freshId, uploads, records, cart);
      |r.records| > |records| ==>
        |r.uploads| == |uploads| + 1 && r.uploads[..|uploads|] == uploads &&
        r.records[|records|].fileUrl == r.uploads[|uploads|]
  {
    var r := Submit(s, user, req, rep, stamp, freshId, uploads, records, cart);
    if |r.records| > |records| {
      assert r.uploads[..|uploads|] == uploads;
    }
  }

  /** A failed cart insert does not change the verdict, the record or the message. */
  lemma CartFailureKeepsVerdict(s: PageState, user: Option<Id>, req: Requested, rep: Replies, stamp: string,
                                freshId: Id, uploads: seq<string>, records: seq<PrescriptionRecord>, cart: seq<CartRow>)
    ensures var ok := Submit(s, user, req, rep.(cartOk := true), stamp, freshId, uploads, records, cart);
      var failed := Submit(s, user, req, rep.(cartOk := false), stamp, freshId, uploads, records, cart);
      ok.outcome == failed.outcome && ok.uploads == failed.uploads && ok.records == failed.records &&
      ok.page == failed.page
  {
    if s.file.Some? && user.Some? && rep.ocr.Some? && rep.uploadOk && rep.recordOk {
      var s2 := s.(matches := []).(extractedText := Lower(rep.ocr.value));
      var stored := uploads + [StoredFileName(user.value, stamp, s.file.value.name)];
      ConcludeIgnoresCartReply(s2, user.value, s.file.value.name, req, rep, stamp, freshId, stored, records, cart);
    }
  }

  lemma ConcludeIgnoresCartReply(s: PageState, uid: Id, fileName: string, req: Requested, rep: Replies, stamp: string,
                                 freshId: Id, uploads: seq<string>, records: seq<PrescriptionRecord>, cart: seq<CartRow>)
    ensures var ok := Conclude(s, uid, fileName, req, rep.(cartOk := true), stamp, freshId, uploads, records, cart);
      var failed := Conclude(s, uid, fileName, req, rep.(cartOk := false), stamp, freshId, uploads, records, cart);
      ok.outcome == failed.outcome && ok.uploads == failed.uploads && ok.records == failed.records &&
      ok.page == failed.page
  {
  }

  /**
   * The cart insert always adds a new line, even when the user already has
   * one for the product; the product card's merge rule is not applied here.
   */
  lemma PrescriptionAddMayDuplicateLine(s: PageState, uid: Id, req: Requested, rep: Replies, stamp: string,
                                        freshId: Id, uploads: seq<string>, records: seq<PrescriptionRecord>,
                                        cart: seq<CartRow>)
    requires Truthy(req.productId) && rep.cartOk
    requires |PairRows(cart, uid, req.productId.value)| == 1
    ensures var r := Submit(s, Some(uid), req, rep, stamp, freshId, uploads, records, cart);
      r.outcome == Verified ==> |PairRows(r.cart, uid, req.productId.value)| == 2
  {
    AppendedLineIsAnotherPair(cart, freshId, uid, req.productId.value);
  }
}
