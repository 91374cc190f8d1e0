/** The package handlers (`booking_controller`): the upload filter, the
    image names kept as one comma-joined column, and the admin-only
    creation and update of packages from form fields. Form values are
    text; `float(...)` and `int(...)` of them are parameters that answer
    `None` where Python raises `ValueError`, and `secure_filename` is a
    parameter whose results hold no comma. */
module PackageController {
  import opened Common
  import opened Text
  import opened UserModel
  import opened PackageModel
  import opened Store
  import UserController

  /** The extensions `allowed_file` accepts, compared in lower case. */
  const ALLOWED_EXTENSIONS: seq<string> := ["png", "jpg", "jpeg", "gif"]

  /** `allowed_file(filename)`: the name has a dot, and the text after its
      last dot is an accepted extension in any case. */
  predicate AllowedFile(filename: string)
  {
    '.' in filename && Lower(LastSegment(filename, '.')) in ALLOWED_EXTENSIONS
  }

  /** A name with an extension is accepted exactly when that extension,
      lower-cased, is one of the four image types; a name without a dot
      never is. */
  lemma AllowedFileIff(stem: string, ext: string, name: string)
    requires '.' !in ext
    ensures AllowedFile(stem + "." + ext) <==> Lower(ext) in ALLOWED_EXTENSIONS
    ensures '.' !in name ==> !AllowedFile(name)
  {
    LastSegmentOf(stem, '.', ext);
    assert '.' in stem + "." + ext by {
      assert (stem + "." + ext)[|stem|] == '.';
    }
  }

  /** The stored name of an accepted upload: the upload time, `_`, and the
      sanitised file name. */
  function UniqueName(stamp: string, name: string): (r: string)
    ensures r != ""
    ensures ',' !in stamp && ',' !in name ==> ',' !in r
  {
    stamp + "_" + name
  }

  /** The names kept for a list of uploads: one per accepted file, in
      upload order. */
  function StoredNames(files: seq<string>, stamp: string, sanitize: string -> string): (r: seq<string>)
    ensures |r| <= |files|
    ensures forall k :: 0 <= k < |r| ==> r[k] != ""
    ensures ',' !in stamp && (forall s :: ',' !in sanitize(s)) ==> forall k :: 0 <= k < |r| ==> ',' !in r[k]
    ensures (forall i :: 0 <= i < |files| ==> !AllowedFile(files[i])) ==> r == []
    decreases |files|
  {
    if files == [] then []
    else
      var last := files[|files| - 1];
      var init := StoredNames(files[..|files| - 1], stamp, sanitize);
      assert forall i :: 0 <= i < |files| - 1 ==> files[..|files| - 1][i] == files[i];
      init + (if last != "" && AllowedFile(last) then [UniqueName(stamp, sanitize(last))] else [])
  }

  /** The upload loop of `create_package` and `update_package`: it keeps
      the accepted files' new names, in order. Saving the files is not
      modelled. */
  method CollectImages(files: seq<string>, stamp: string, sanitize: string -> string) returns (images: seq<string>)
    ensures images == StoredNames(files, stamp, sanitize)
  {
    images := [];
    for i := 0 to |files|
      invariant images == StoredNames(files[..i], stamp, sanitize)
    {
      assert files[..i + 1][..i] == files[..i];
      if files[i] != "" && AllowedFile(files[i]) {
        images := images + [UniqueName(stamp, sanitize(files[i]))];
      }
    }
    assert files[..|files|] == files;
  }

  /** The image list survives the column: joined with ',' on save and split
      on read, a list of non-empty names without commas comes back as it
      was, and no image gives the empty list. */
  lemma ImagesRoundTrip(names: seq<string>)
    requires forall k :: 0 <= k < |names| ==> names[k] != "" && ',' !in names[k]
    ensures ImageList(Some(Join(names, ','))) == names
  {
    if |names| > 0 {
      assert Join(names, ',') != "" by {
        if |names| > 1 {
          assert Join(names, ',') == names[0] + [','] + Join(names[1..], ',');
        }
      }
      SplitJoin(names, ',');
    }
  }

  /** The form fields the package handlers read; an absent field is
      `None`. */
  datatype PackageForm = PackageForm(
    destination: Option<string>, description: Option<string>, price: Option<string>,
    duration: Option<string>, includedServices: Option<string>, availability: Option<string>)

  /** `create_package`, an admin-only route: destination, price and
      duration are required (400); the price and duration must read as
      numbers (otherwise `ValueError` escapes); the new package is available,
      admits the default number of travellers and lists exactly the
      accepted uploads. */
  method CreatePackage(db: Database, current: Option<User>, form: PackageForm, files: seq<string>,
                       stamp: string, sanitize: string -> string, toFloat: string -> Option<real>,
                       toInt: string -> Option<int>, now: nat)
    returns (r: Result<nat>)
    requires db.Valid()
    requires IsDigits(stamp)
    requires forall s :: ',' !in sanitize(s)
    modifies db`packages, db`nextId
    ensures db.Valid()
    ensures r == Raise(AttributeError) <==> current.None?
    ensures r == Ok(FORBIDDEN) <==> current.Some? && current.value.role != ADMIN
    ensures r == Ok(BAD_REQUEST) <==>
              current.Some? && current.value.role == ADMIN
              && (!GivenText(form.destination) || !GivenText(form.price) || !GivenText(form.duration))
    ensures r == Raise(ValueError) <==>
              current.Some? && current.value.role == ADMIN
              && GivenText(form.destination) && GivenText(form.price) && GivenText(form.duration)
              && (toFloat(form.price.value).None? || toInt(form.duration.value).None?)
    ensures r.Ok? ==> r.value in {CREATED, FORBIDDEN, BAD_REQUEST}
    ensures r.Raise? ==> r.exc in {AttributeError, ValueError}
    ensures r == Ok(CREATED) <==>
              current.Some? && current.value.role == ADMIN
              && GivenText(form.destination) && GivenText(form.price) && GivenText(form.duration)
              && toFloat(form.price.value).Some? && toInt(form.duration.value).Some?
    ensures r != Ok(CREATED) ==> db.packages == old(db.packages) && db.nextId == old(db.nextId)
    ensures r == Ok(CREATED) ==>
              |db.packages| == |old(db.packages)| + 1 && db.packages[..|old(db.packages)|] == old(db.packages)
              && var p := db.packages[|old(db.packages)|];
                 p.id == old(db.nextId) && p.destination == form.destination.value
                 && p.description == form.description && p.price == toFloat(form.price.value).value
                 && p.duration == toInt(form.duration.value).value && p.includedServices == form.includedServices
                 && p.availability && p.maxTravelers == DEFAULT_MAX_TRAVELERS
                 && p.ImageNames() == StoredNames(files, stamp, sanitize)
  {
    var gate := UserController.RoleRequired(current, [ADMIN]);
    if gate.Raise? {
      return Raise(gate.exc);
    }
    if gate.value.Deny? {
      return Ok(gate.value.code);
    }
    if !GivenText(form.destination) || !GivenText(form.price) || !GivenText(form.duration) {
      return Ok(BAD_REQUEST);
    }
    var images := CollectImages(files, stamp, sanitize);
    var price := toFloat(form.price.value);
    var duration := toInt(form.duration.value);
    if price.None? || duration.None? {
      return Raise(ValueError);
    }
    ImagesRoundTrip(images);
    var p := new Package(db.nextId, form.destination.value, form.description, price.value, duration.value, now,
                         form.includedServices, Some(Join(images, ',')), true);
    db.AddPackage(p);
    return Ok(CREATED);
  }

  /** `bool(form_value)` as written: any non-empty text is true, so
      "false" and "0" read as true. */
  function FormBoolAsWritten(value: string): (r: bool)
    ensures r <==> |value| > 0
  {
    value != ""
  }

  /** An admin who sends `availability=false` to take a package off sale
      leaves it for sale. */
  lemma FalseAvailabilityReadsTrue()
    ensures FormBoolAsWritten("false") && FormBoolAsWritten("0") && FormBoolAsWritten("False")
  {
  }

  /** The truth values the application reads from text elsewhere (its
      `DEBUG` setting): "true", "1" or "t", in any case. */
  const TRUE_TEXTS: seq<string> := ["true", "1", "t"]

  /** A form flag read as the text it holds. */
  function FormFlag(value: string): (r: bool)
  {
    Lower(value) in TRUE_TEXTS
  }

  /** The reading keeps the two spellings apart: "false", "0" and the empty
      text are false, "true", "1" and "t" are true, and case does not
      matter. */
  lemma FormFlagReadsText(value: string)
    ensures !FormFlag("false") && !FormFlag("0") && !FormFlag("") && !FormFlag("False")
    ensures FormFlag("true") && FormFlag("1") && FormFlag("t") && FormFlag("TRUE")
    ensures FormFlag(Lower(value)) == FormFlag(value)
  {
    assert Lower("false") == "false";
    assert Lower("False") == "false";
    assert Lower("0") == "0";
    assert Lower("true") == "true";
    assert Lower("TRUE") == "true";
    assert Lower("1") == "1";
    assert Lower("t") == "t";
    assert Lower(Lower(value)) == Lower(value);
  }

  /** The new uploads replace the image list only when the first file has a
      name. */
  predicate ReplacesImages(files: seq<string>)
  {
    |files| > 0 && files[0] != ""
  }

  /** The availability an update writes: the form value read by `read`,
      or nothing when the field is absent. */
  function ReadAvailability(form: PackageForm, read: string -> bool): (r: Option<bool>)
    ensures r.Some? <==> form.availability.Some?
    ensures r.Some? ==> r.value == read(form.availability.value)
  {
    if form.availability.Some? then Some(read(form.availability.value)) else None
  }

  /** The new state of a package after the writes of `update_package`: each
      truthy text field replaces its column, the price and duration are the
      ones read, a read availability replaces the flag, and uploads whose
      first file has a name replace the image list; every other column
      keeps its value. */
  twostate predicate UpdateWritten(p: Package, form: PackageForm, price: real, duration: int,
                                   availability: Option<bool>, files: seq<string>, stamp: string,
                                   sanitize: string -> string)
    reads p
  {
    p.destination == (if GivenText(form.destination) then form.destination.value else old(p.destination))
    && p.description == (if GivenText(form.description) then form.description else old(p.description))
    && p.price == price && p.duration == duration
    && p.includedServices
       == (if GivenText(form.includedServices) then form.includedServices else old(p.includedServices))
    && p.availability == (if availability.Some? then availability.value else old(p.availability))
    && (ReplacesImages(files) ==> p.ImageNames() == StoredNames(files, stamp, sanitize))
    && (!ReplacesImages(files) ==> p.images == old(p.images))
  }

  /** `update_package` as written: the availability field is read with
      `bool(...)`, so any non-empty text, "false" included, makes the
      package available (see `FalseAvailabilityReadsTrue`). */
  method UpdatePackage(db: Database, current: Option<User>, packageId: int, form: PackageForm,
                       files: seq<string>, stamp: string, sanitize: string -> string,
                       toFloat: string -> Option<real>, toInt: string -> Option<int>)
    returns (r: Result<nat>)
    requires IsDigits(stamp)
    requires forall s :: ',' !in sanitize(s)
    modifies AsSet(db.FindPackage(packageId))`destination, AsSet(db.FindPackage(packageId))`description,
             AsSet(db.FindPackage(packageId))`price, AsSet(db.FindPackage(packageId))`duration,
             AsSet(db.FindPackage(packageId))`includedServices, AsSet(db.FindPackage(packageId))`availability,
             AsSet(db.FindPackage(packageId))`images
    ensures r == Raise(AttributeError) <==> current.None?
    ensures r == Ok(FORBIDDEN) <==> current.Some? && current.value.role != ADMIN
    ensures r == Ok(NOT_FOUND) <==> current.Some? && current.value.role == ADMIN && db.FindPackage(packageId).None?
    ensures r == Raise(ValueError) <==>
              current.Some? && current.value.role == ADMIN && db.FindPackage(packageId).Some?
              && ((GivenText(form.price) && toFloat(form.price.value).None?)
                  || (GivenText(form.duration) && toInt(form.duration.value).None?))
    ensures r.Ok? ==> r.value in {OK, FORBIDDEN, NOT_FOUND}
    ensures r.Raise? ==> r.exc in {AttributeError, ValueError}
    ensures r == Ok(OK) <==>
              current.Some? && current.value.role == ADMIN && db.FindPackage(packageId).Some?
              && !(GivenText(form.price) && toFloat(form.price.value).None?)
              && !(GivenText(form.duration) && toInt(form.duration.value).None?)
    ensures r != Ok(OK) ==> unchanged(AsSet(db.FindPackage(packageId)))
    ensures r == Ok(OK) ==>
              var p := db.FindPackage(packageId).value;
              UpdateWritten(p, form,
                            if GivenText(form.price) then toFloat(form.price.value).value else old(p.price),
                            if GivenText(form.duration) then toInt(form.duration.value).value else old(p.duration),
                            ReadAvailability(form, FormBoolAsWritten), files, stamp, sanitize)
    ensures r == Ok(OK) && form.availability == Some("false") ==> db.FindPackage(packageId).value.availability
  {
    r := UpdatePackageReading(db, current, packageId, form, files, stamp, sanitize, toFloat, toInt, FormBoolAsWritten);
    FalseAvailabilityReadsTrue();
  }

  /** `update_package` with the availability read as the text it holds
      (`FormFlag`): "false" and "0" take the package off sale. */
  method UpdatePackageCorrected(db: Database, current: Option<User>, packageId: int, form: PackageForm,
                                files: seq<string>, stamp: string, sanitize: string -> string,
                                toFloat: string -> Option<real>, toInt: string -> Option<int>)
    returns (r: Result<nat>)
    requires IsDigits(stamp)
    requires forall s :: ',' !in sanitize(s)
    modifies AsSet(db.FindPackage(packageId))`destination, AsSet(db.FindPackage(packageId))`description,
             AsSet(db.FindPackage(packageId))`price, AsSet(db.FindPackage(packageId))`duration,
             AsSet(db.FindPackage(packageId))`includedServices, AsSet(db.FindPackage(packageId))`availability,
             AsSet(db.FindPackage(packageId))`images
    ensures r == Raise(AttributeError) <==> current.None?
    ensures r == Ok(FORBIDDEN) <==> current.Some? && current.value.role != ADMIN
    ensures r == Ok(NOT_FOUND) <==> current.Some? && current.value.role == ADMIN && db.FindPackage(packageId).None?
    ensures r == Raise(ValueError) <==>
              current.Some? && current.value.role == ADMIN && db.FindPackage(packageId).Some?
              && ((GivenText(form.price) && toFloat(form.price.value).None?)
                  || (GivenText(form.duration) && toInt(form.duration.value).None?))
    ensures r.Ok? ==> r.value in {OK, FORBIDDEN, NOT_FOUND}
    ensures r.Raise? ==> r.exc in {AttributeError, ValueError}
    ensures r == Ok(OK) <==>
              current.Some? && current.value.role == ADMIN && db.FindPackage(packageId).Some?
              && !(GivenText(form.price) && toFloat(form.price.value).None?)
              && !(GivenText(form.duration) && toInt(form.duration.value).None?)
    ensures r != Ok(OK) ==> unchanged(AsSet(db.FindPackage(packageId)))
    ensures r == Ok(OK) ==>
              var p := db.FindPackage(packageId).value;
              UpdateWritten(p, form,
                            if GivenText(form.price) then toFloat(form.price.value).value else old(p.price),
                            if GivenText(form.duration) then toInt(form.duration.value).value else old(p.duration),
                            ReadAvailability(form, FormFlag), files, stamp, sanitize)
    ensures r == Ok(OK) && form.availability == Some("false") ==> !db.FindPackage(packageId).value.availability
  {
    r := UpdatePackageReading(db, current, packageId, form, files, stamp, sanitize, toFloat, toInt, FormFlag);
    FormFlagReadsText("false");
  }

  /** `update_package`, an admin-only route, with the availability field
      read by `read`: the package must exist (404); the fields are written
      as `UpdateWritten` says. A price or duration that does not read as a
      number raises before the commit, so nothing is stored. */
  method UpdatePackageReading(db: Database, current: Option<User>, packageId: int, form: PackageForm,
                              files: seq<string>, stamp: string, sanitize: string -> string,
                              toFloat: string -> Option<real>, toInt: string -> Option<int>, read: string -> bool)
    returns (r: Result<nat>)
    requires IsDigits(stamp)
    requires forall s :: ',' !in sanitize(s)
    modifies AsSet(db.FindPackage(packageId))`destination, AsSet(db.FindPackage(packageId))`description,
             AsSet(db.FindPackage(packageId))`price, AsSet(db.FindPackage(packageId))`duration,
             AsSet(db.FindPackage(packageId))`includedServices, AsSet(db.FindPackage(packageId))`availability,
             AsSet(db.FindPackage(packageId))`images
    ensures r == Raise(AttributeError) <==> current.None?
    ensures r == Ok(FORBIDDEN) <==> current.Some? && current.value.role != ADMIN
    ensures r == Ok(NOT_FOUND) <==> current.Some? && current.value.role == ADMIN && db.FindPackage(packageId).None?
    ensures r == Raise(ValueError) <==>
              current.Some? && current.value.role == ADMIN && db.FindPackage(packageId).Some?
              && ((GivenText(form.price) && toFloat(form.price.value).None?)
                  || (GivenText(form.duration) && toInt(form.duration.value).None?))
    ensures r.Ok? ==> r.value in {OK, FORBIDDEN, NOT_FOUND}
    ensures r.Raise? ==> r.exc in {AttributeError, ValueError}
    ensures r == Ok(OK) <==>
              current.Some? && current.value.role == ADMIN && db.FindPackage(packageId).Some?
              && !(GivenText(form.price) && toFloat(form.price.value).None?)
              && !(GivenText(form.duration) && toInt(form.duration.value).None?)
    ensures r != Ok(OK) ==> unchanged(AsSet(db.FindPackage(packageId)))
    ensures r == Ok(OK) ==>
              var p := db.FindPackage(packageId).value;
              UpdateWritten(p, form,
                            if GivenText(form.price) then toFloat(form.price.value).value else old(p.price),
                            if GivenText(form.duration) then toInt(form.duration.value).value else old(p.duration),
                            ReadAvailability(form, read), files, stamp, sanitize)
  {
    var gate := UserController.RoleRequired(current, [ADMIN]);
    if gate.Raise? {
      return Raise(gate.exc);
    }
    if gate.value.Deny? {
      return Ok(gate.value.code);
    }
    var package := db.FindPackage(packageId);
    if package.None? {
      return Ok(NOT_FOUND);
    }
    var price := if GivenText(form.price) then toFloat(form.price.value) else Some(package.value.price);
    var duration := if GivenText(form.duration) then toInt(form.duration.value) else Some(package.value.duration);
    if price.None? || duration.None? {
      return Raise(ValueError);
    }
    ApplyPackageUpdate(package.value, form, price.value, duration.value, ReadAvailability(form, read),
                       files, stamp, sanitize);
    return Ok(OK);
  }

  /** The writes of `update_package` once every value has been read. */
  method ApplyPackageUpdate(p: Package, form: PackageForm, price: real, duration: int, availability: Option<bool>,
                            files: seq<string>, stamp: string, sanitize: string -> string)
    requires IsDigits(stamp)
    requires forall s :: ',' !in sanitize(s)
    modifies p`destination, p`description, p`price, p`duration, p`includedServices, p`availability, p`images
    ensures UpdateWritten(p, form, price, duration, availability, files, stamp, sanitize)
  {
    if GivenText(form.destination) {
      p.destination := form.destination.value;
    }
    if GivenText(form.description) {
      p.description := form.description;
    }
    p.price := price;
    p.duration := duration;
    if GivenText(form.includedServices) {
      p.includedServices := form.includedServices;
    }
    if availability.Some? {
      p.availability := availability.value;
    }
    if ReplacesImages(files) {
      StoreImages(p, files, stamp, sanitize);
    }
  }

  /** `package.images = ','.join(images)`: the column lists exactly the
      accepted uploads. */
  method StoreImages(p: Package, files: seq<string>, stamp: string, sanitize: string -> string)
    requires IsDigits(stamp)
    requires forall s :: ',' !in sanitize(s)
    modifies p`images
    ensures p.ImageNames() == StoredNames(files, stamp, sanitize)
  {
    var images := CollectImages(files, stamp, sanitize);
    ImagesRoundTrip(images);
    p.images := Some(Join(images, ','));
  }
}
