/** A model, the file that it writes, and the model that is read from it. */
module SaveLoad {
  import opened Tokens
  import opened Records
  import opened Document
  import opened Input
  import opened Output
  import opened Loader
  import opened RoundTrip

  /** dimeModel::write into an empty file, which a new dimeInput opens and
      dimeModel::read reads, whatever the sizes of the refills: all sections come
      back, with the new $HANDSEED, with numbers as they were formatted, and with
      the titles of the tables as names. */
  method SaveAndLoad(model: DxfModel, format: Format) returns (copy: DxfModel, ghost seed: Value)
    requires IsFormat(format) && AllReadable(model.headerComments)
    requires AllLegible(model.sections) && AllTitled(model.sections) && model.largestHandle < 0x7fff_ffff
    modifies model
    ensures fresh(copy) && IsSeed(old(model.sections), old(model.largestHandle), seed)
    ensures model.sections == Seeded(old(model.sections), old(model.largestHandle), seed)
    ensures model.headerComments == old(model.headerComments) && model.largestHandle == old(model.largestHandle)
    ensures copy.sections == AllNamed(RoundedSections(format, model.sections))
  {
    hide PrintModel, TakeModel, AllReadable, AllLegible, AllTitled, AllNamed, Seeded, IsSeed, FileInput.Rest, Agreeing,
      RoundedSections, IsFormat;
    var out := new FileOutput(format);
    seed := model.Write(out);
    ghost var printed := PrintModel(model.headerComments, RoundedSections(format, model.sections));
    assert [] + printed == printed;
    PrintedIsAscii(model.headerComments, RoundedSections(format, model.sections));
    SavedModelLoads(format, model.headerComments, old(model.sections), model.largestHandle, seed);
    var file := new FileInput(out.text);
    var binary, first := file.CheckBinary();
    assert !binary;
    copy := new DxfModel();
    var status := copy.Read(file);
    assert status.Done?;
  }

  /** dimeModel::read and then dimeModel::write: what is written is what was loaded,
      with a $HANDSEED that is above every handle in it. */
  method LoadAndSave(model: DxfModel, file: FileInput, out: FileOutput) returns (status: Status, ghost seed: Value)
    requires Ready(file)
    requires var loaded := TakeModel(file.Rest()); loaded.status.Done? ==> AllTitled(loaded.sections)
    modifies model, file, file.readbuf, out
    ensures status == TakeModel(old(file.Rest())).status && model.largestHandle >= old(model.largestHandle)
    ensures var loaded := TakeModel(old(file.Rest())).sections;
      && AllCovered(loaded, model.largestHandle)
      && (status.Done? ==>
            && model.sections == Seeded(loaded, model.largestHandle, seed)
            && out.text == old(out.text) + PrintModel(model.headerComments, RoundedSections(out.format, model.sections))
            && (0 < model.largestHandle < 0x7fff_ffff && SeedIsText(loaded) ==>
                  seed.Text? && ScanHex(seed.text).Some? && AllCovered(loaded, ScanHex(seed.text).value - 1)))
  {
    hide PrintModel, TakeModel, AllTitled, Seeded, IsSeed, FileInput.Rest, RoundedSections, AllCovered,
      SeedIsText, ScanHex;
    status := model.Read(file);
    seed := Text("");
    if status.Done? {
      ghost var loaded := model.sections;
      seed := model.Write(out);
      if 0 < model.largestHandle < 0x7fff_ffff && SeedIsText(loaded) {
        SeedIsAbove(loaded, model.largestHandle, seed);
      }
    }
  }
}
