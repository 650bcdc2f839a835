/** The two artifacts written per employee and the batch over the roster.
    The QR raster itself is not modelled: a QR file is represented by the
    payload it encodes. The file system is a map from output file to
    content, so writing a file twice keeps only the later content. */
module Assets {
  import opened Wrappers
  import opened Roster
  import opened Slug
  import opened VCard

  /** The text encoded into the QR image: the employee's profile address. */
  function QrPayload(e: Employee): string
  {
    ProfileUrl(SlugOf(e))
  }

  /** The two output folders, `assets/qr` and `assets/vcards`. */
  datatype Directory = QrDirectory | VCardDirectory

  datatype OutputFile = OutputFile(dir: Directory, name: string)

  datatype Content = QrImage(payload: string) | CardText(text: string)

  function QrFile(e: Employee): OutputFile
  {
    OutputFile(QrDirectory, QrFileName(SlugOf(e)))
  }

  function CardFile(e: Employee): OutputFile
  {
    OutputFile(VCardDirectory, VCardFileName(SlugOf(e)))
  }

  /** Two employees write to the same QR file, and to the same card file,
      exactly when their slugs agree; a QR file is never a card file. */
  lemma OutputFilesBySlug(e1: Employee, e2: Employee)
    ensures QrFile(e1) == QrFile(e2) <==> SlugOf(e1) == SlugOf(e2)
    ensures CardFile(e1) == CardFile(e2) <==> SlugOf(e1) == SlugOf(e2)
    ensures QrFile(e1) != CardFile(e2)
  {
    FileNamesShareStem(SlugOf(e1), SlugOf(e2));
  }

  /** One iteration of the batch: the QR image, then the card, each
      overwriting whatever file of that name was there. */
  function EmitEmployee(files: map<OutputFile, Content>, e: Employee): map<OutputFile, Content>
  {
    files[QrFile(e) := QrImage(QrPayload(e))][CardFile(e) := CardText(GenerateVCard(e))]
  }

  /** Processing an entry writes its two files with its own content. */
  lemma EmitWritesOwnFiles(files: map<OutputFile, Content>, e: Employee)
    ensures QrFile(e) in EmitEmployee(files, e) && CardFile(e) in EmitEmployee(files, e)
    ensures EmitEmployee(files, e)[QrFile(e)] == QrImage(QrPayload(e))
    ensures EmitEmployee(files, e)[CardFile(e)] == CardText(GenerateVCard(e))
  {
    OutputFilesBySlug(e, e);
  }

  /** Processing an entry leaves the files of every other slug as they were. */
  lemma EmitKeepsOtherSlugs(files: map<OutputFile, Content>, e: Employee, other: Employee)
    requires SlugOf(e) != SlugOf(other)
    ensures QrFile(other) in EmitEmployee(files, e) <==> QrFile(other) in files
    ensures CardFile(other) in EmitEmployee(files, e) <==> CardFile(other) in files
    ensures QrFile(other) in files ==> EmitEmployee(files, e)[QrFile(other)] == files[QrFile(other)]
    ensures CardFile(other) in files ==> EmitEmployee(files, e)[CardFile(other)] == files[CardFile(other)]
  {
    OutputFilesBySlug(e, other);
    OutputFilesBySlug(other, e);
  }

  /** The files written by processing the roster in order, starting from
      empty output folders. */
  function GenerateAll(roster: seq<Employee>): map<OutputFile, Content>
  {
    if roster == [] then map[]
    else EmitEmployee(GenerateAll(roster[..|roster| - 1]), roster[|roster| - 1])
  }

  /** No later entry shares the slug of entry `i`. */
  predicate LastWithSlug(roster: seq<Employee>, i: int)
    requires 0 <= i < |roster|
  {
    forall j :: i < j < |roster| ==> SlugOf(roster[j]) != SlugOf(roster[i])
  }

  predicate DistinctSlugs(roster: seq<Employee>)
  {
    forall i, j :: 0 <= i < j < |roster| ==> SlugOf(roster[i]) != SlugOf(roster[j])
  }

  /** The names of the files present after the batch, computed without
      their content. */
  function WrittenFiles(roster: seq<Employee>): set<OutputFile>
  {
    if roster == [] then {}
    else WrittenFiles(roster[..|roster| - 1]) + {QrFile(roster[|roster| - 1]), CardFile(roster[|roster| - 1])}
  }

  /** `WrittenFiles` is exactly the set of names the batch leaves behind. */
  lemma {:induction false} WrittenFilesAreKeys(roster: seq<Employee>)
    ensures GenerateAll(roster).Keys == WrittenFiles(roster)
    decreases |roster|
  {
    if roster != [] {
      WrittenFilesAreKeys(roster[..|roster| - 1]);
    }
  }

  /** A run of the script over folders that already hold `existing`: the
      folders are never cleared, so the batch writes over what is there. */
  function RunScript(existing: map<OutputFile, Content>, roster: seq<Employee>): map<OutputFile, Content>
  {
    if roster == [] then existing
    else EmitEmployee(RunScript(existing, roster[..|roster| - 1]), roster[|roster| - 1])
  }

  /** Writing an entry's files over a layered folder only touches the top
      layer. */
  lemma EmitOverExisting(existing: map<OutputFile, Content>, files: map<OutputFile, Content>, e: Employee)
    ensures EmitEmployee(existing + files, e) == existing + EmitEmployee(files, e)
  {
    var lhs, rhs := EmitEmployee(existing + files, e), existing + EmitEmployee(files, e);
    assert lhs.Keys == rhs.Keys;
    forall f | f in lhs.Keys
      ensures lhs[f] == rhs[f]
    {
    }
  }

  /** A run over existing files leaves them overlaid by exactly the files
      this run writes. */
  lemma {:induction false} RunOverlaysExisting(existing: map<OutputFile, Content>, roster: seq<Employee>)
    ensures RunScript(existing, roster) == existing + GenerateAll(roster)
    decreases |roster|
  {
    if roster == [] {
      assert existing + map[] == existing;
    } else {
      var n := |roster| - 1;
      RunOverlaysExisting(existing, roster[..n]);
      EmitOverExisting(existing, GenerateAll(roster[..n]), roster[n]);
    }
  }

  /** After a run, the files present are those that were there before plus
      those the roster writes. */
  lemma RunKeys(existing: map<OutputFile, Content>, roster: seq<Employee>)
    ensures RunScript(existing, roster).Keys == existing.Keys + WrittenFiles(roster)
  {
    RunOverlaysExisting(existing, roster);
    WrittenFilesAreKeys(roster);
  }

  /** A file that no entry of the roster writes keeps its earlier state:
      a stale file from an earlier run survives with its old content, and
      an absent one stays absent. */
  lemma StaleFilesSurvive(existing: map<OutputFile, Content>, roster: seq<Employee>, f: OutputFile)
    requires f !in WrittenFiles(roster)
    ensures f in RunScript(existing, roster) <==> f in existing
    ensures f in existing ==> RunScript(existing, roster)[f] == existing[f]
  {
    RunOverlaysExisting(existing, roster);
    WrittenFilesAreKeys(roster);
  }

  /** Every file the roster writes holds what the batch wrote, whatever was
      there before. */
  lemma RunWritesOver(existing: map<OutputFile, Content>, roster: seq<Employee>, f: OutputFile)
    requires f in WrittenFiles(roster)
    ensures f in RunScript(existing, roster) && f in GenerateAll(roster)
    ensures RunScript(existing, roster)[f] == GenerateAll(roster)[f]
  {
    RunOverlaysExisting(existing, roster);
    WrittenFilesAreKeys(roster);
  }

  /** Every entry's two files are present once the batch is done. */
  lemma {:induction false} RosterFilesWritten(roster: seq<Employee>, i: int)
    requires 0 <= i < |roster|
    ensures QrFile(roster[i]) in WrittenFiles(roster) && CardFile(roster[i]) in WrittenFiles(roster)
    decreases |roster|
  {
    var n := |roster| - 1;
    if i < n {
      RosterFilesWritten(roster[..n], i);
      assert roster[..n][i] == roster[i];
    }
  }

  /** Every file present belongs to some entry of the roster. */
  lemma {:induction false} WrittenFilesFromRoster(roster: seq<Employee>, f: OutputFile)
    requires f in WrittenFiles(roster)
    ensures exists i :: 0 <= i < |roster| && (f == QrFile(roster[i]) || f == CardFile(roster[i]))
    decreases |roster|
  {
    var n := |roster| - 1;
    var prefix, e := roster[..n], roster[n];
    if f == QrFile(e) || f == CardFile(e) {
      assert roster[n] == e;
    } else {
      WrittenFilesFromRoster(prefix, f);
      var i :| 0 <= i < n && (f == QrFile(prefix[i]) || f == CardFile(prefix[i]));
      assert prefix[i] == roster[i];
    }
  }

  /** The batch writes exactly the QR file and the card file of every entry,
      and no other file. */
  lemma GeneratedFiles(roster: seq<Employee>)
    ensures forall f :: f in GenerateAll(roster) <==>
              exists i :: 0 <= i < |roster| && (f == QrFile(roster[i]) || f == CardFile(roster[i]))
  {
    WrittenFilesAreKeys(roster);
    WrittenFilesExactly(roster);
    forall f
      ensures f in GenerateAll(roster) <==> f in WrittenFiles(roster)
    {
    }
  }

  lemma WrittenFilesExactly(roster: seq<Employee>)
    ensures forall f :: f in WrittenFiles(roster) <==>
              exists i :: 0 <= i < |roster| && (f == QrFile(roster[i]) || f == CardFile(roster[i]))
  {
    forall f | f in WrittenFiles(roster)
      ensures exists i :: 0 <= i < |roster| && (f == QrFile(roster[i]) || f == CardFile(roster[i]))
    {
      WrittenFilesFromRoster(roster, f);
    }
    forall i | 0 <= i < |roster|
      ensures QrFile(roster[i]) in WrittenFiles(roster) && CardFile(roster[i]) in WrittenFiles(roster)
    {
      RosterFilesWritten(roster, i);
    }
  }

  /** The entry processed last owns both of its files. */
  lemma LastEntryWrites(roster: seq<Employee>)
    requires |roster| > 0
    ensures QrFile(roster[|roster| - 1]) in GenerateAll(roster)
    ensures CardFile(roster[|roster| - 1]) in GenerateAll(roster)
    ensures GenerateAll(roster)[QrFile(roster[|roster| - 1])] == QrImage(QrPayload(roster[|roster| - 1]))
    ensures GenerateAll(roster)[CardFile(roster[|roster| - 1])] == CardText(GenerateVCard(roster[|roster| - 1]))
  {
    EmitWritesOwnFiles(GenerateAll(roster[..|roster| - 1]), roster[|roster| - 1]);
  }

  lemma LastWithSlugInPrefix(roster: seq<Employee>, i: int)
    requires 0 <= i < |roster| - 1 && LastWithSlug(roster, i)
    ensures roster[..|roster| - 1][i] == roster[i]
    ensures LastWithSlug(roster[..|roster| - 1], i)
    ensures SlugOf(roster[|roster| - 1]) != SlugOf(roster[i])
  {
    var prefix := roster[..|roster| - 1];
    forall j | i < j < |prefix|
      ensures SlugOf(prefix[j]) != SlugOf(prefix[i])
    {
      assert prefix[j] == roster[j];
    }
  }

  /** The last entry with a given slug decides the content of both of its
      files: the QR image encodes its profile address and the card file
      holds its card text. */
  lemma {:induction false} LastWriterWins(roster: seq<Employee>, i: int)
    requires 0 <= i < |roster| && LastWithSlug(roster, i)
    ensures QrFile(roster[i]) in GenerateAll(roster)
    ensures CardFile(roster[i]) in GenerateAll(roster)
    ensures GenerateAll(roster)[QrFile(roster[i])] == QrImage(QrPayload(roster[i]))
    ensures GenerateAll(roster)[CardFile(roster[i])] == CardText(GenerateVCard(roster[i]))
    decreases |roster|, 1
  {
    if i < |roster| - 1 {
      EarlierWriterSurvives(roster, i);
    } else {
      LastEntryWrites(roster);
    }
  }

  /** Induction step of `LastWriterWins`: an entry that is not the last one
      keeps its files through the final iteration, whose slug differs. */
  lemma {:induction false} EarlierWriterSurvives(roster: seq<Employee>, i: int)
    requires 0 <= i < |roster| - 1 && LastWithSlug(roster, i)
    ensures QrFile(roster[i]) in GenerateAll(roster)
    ensures CardFile(roster[i]) in GenerateAll(roster)
    ensures GenerateAll(roster)[QrFile(roster[i])] == QrImage(QrPayload(roster[i]))
    ensures GenerateAll(roster)[CardFile(roster[i])] == CardText(GenerateVCard(roster[i]))
    decreases |roster|, 0
  {
    var prefix := roster[..|roster| - 1];
    LastWithSlugInPrefix(roster, i);
    LastWriterWins(prefix, i);
    EmitKeepsOtherSlugs(GenerateAll(prefix), roster[|roster| - 1], roster[i]);
  }

  /** Over folders that already hold files, too, the last entry with a slug
      decides both of its files. */
  lemma LastWriterWinsOverExisting(existing: map<OutputFile, Content>, roster: seq<Employee>, i: int)
    requires 0 <= i < |roster| && LastWithSlug(roster, i)
    ensures QrFile(roster[i]) in RunScript(existing, roster)
    ensures CardFile(roster[i]) in RunScript(existing, roster)
    ensures RunScript(existing, roster)[QrFile(roster[i])] == QrImage(QrPayload(roster[i]))
    ensures RunScript(existing, roster)[CardFile(roster[i])] == CardText(GenerateVCard(roster[i]))
  {
    RosterFilesWritten(roster, i);
    LastWriterWins(roster, i);
    RunWritesOver(existing, roster, QrFile(roster[i]));
    RunWritesOver(existing, roster, CardFile(roster[i]));
  }

  /** Processing an entry over files that are all its own gives the same
      result as processing it alone. */
  lemma EmitOverwritesOwnFiles(files: map<OutputFile, Content>, e: Employee)
    requires forall f :: f in files ==> f == QrFile(e) || f == CardFile(e)
    ensures EmitEmployee(files, e) == EmitEmployee(map[], e)
  {
    EmitWritesOwnFiles(files, e);
    EmitWritesOwnFiles(map[], e);
    assert EmitEmployee(files, e).Keys == EmitEmployee(map[], e).Keys;
  }

  /** Appending an entry to the roster runs one more iteration. */
  lemma GenerateAppend(prefix: seq<Employee>, e: Employee)
    ensures GenerateAll(prefix + [e]) == EmitEmployee(GenerateAll(prefix), e)
  {
    assert (prefix + [e])[..|prefix|] == prefix;
  }

  /** An entry followed by another with the same slug leaves no trace. */
  lemma DuplicateSlugOverwrites(first: Employee, second: Employee)
    requires SlugOf(first) == SlugOf(second)
    ensures GenerateAll([first, second]) == GenerateAll([second])
  {
    GenerateAppend([], first);
    GenerateAppend([], second);
    GenerateAppend([first], second);
    assert [] + [first] == [first] && [] + [second] == [second];
    assert [first] + [second] == [first, second];
    OutputFilesBySlug(first, second);
    EmitOverwritesOwnFiles(GenerateAll([first]), second);
  }

  /** The batch writes at most two files per entry. */
  lemma {:induction false} WrittenCountBound(roster: seq<Employee>)
    ensures |WrittenFiles(roster)| <= 2 * |roster|
    decreases |roster|
  {
    if roster != [] {
      WrittenCountBound(roster[..|roster| - 1]);
    }
  }

  lemma FileCountBound(roster: seq<Employee>)
    ensures |GenerateAll(roster)| <= 2 * |roster|
  {
    WrittenFilesAreKeys(roster);
    WrittenCountBound(roster);
  }

  /** An entry whose slug no earlier entry had finds neither of its files
      written yet. */
  lemma {:induction false} FreshSlugNotWritten(roster: seq<Employee>, e: Employee)
    requires forall k :: 0 <= k < |roster| ==> SlugOf(roster[k]) != SlugOf(e)
    ensures QrFile(e) !in WrittenFiles(roster) && CardFile(e) !in WrittenFiles(roster)
    decreases |roster|
  {
    if roster != [] {
      var n := |roster| - 1;
      var prefix := roster[..n];
      assert forall k :: 0 <= k < |prefix| ==> prefix[k] == roster[k];
      FreshSlugNotWritten(prefix, e);
      assert SlugOf(roster[n]) != SlugOf(e);
      OutputFilesBySlug(e, roster[n]);
      OutputFilesBySlug(roster[n], e);
      assert WrittenFiles(roster) == WrittenFiles(prefix) + {QrFile(roster[n]), CardFile(roster[n])};
    }
  }

  /** One entry adds at most two names, exactly two when both are new, and
      none when both are already present. */
  lemma AddNamesCount(files: set<OutputFile>, e: Employee)
    ensures |files + {QrFile(e), CardFile(e)}| <= |files| + 2
    ensures QrFile(e) !in files && CardFile(e) !in files ==> |files + {QrFile(e), CardFile(e)}| == |files| + 2
    ensures QrFile(e) in files && CardFile(e) in files ==> files + {QrFile(e), CardFile(e)} == files
  {
    OutputFilesBySlug(e, e);
    assert files + {QrFile(e), CardFile(e)} == files + {QrFile(e)} + {CardFile(e)};
  }

  lemma {:induction false} DistinctSlugsWrittenCount(roster: seq<Employee>)
    requires DistinctSlugs(roster)
    ensures |WrittenFiles(roster)| == 2 * |roster|
    decreases |roster|
  {
    if roster != [] {
      var n := |roster| - 1;
      var prefix := roster[..n];
      assert forall k :: 0 <= k < n ==> prefix[k] == roster[k];
      assert DistinctSlugs(prefix);
      DistinctSlugsWrittenCount(prefix);
      FreshSlugNotWritten(prefix, roster[n]);
      AddNamesCount(WrittenFiles(prefix), roster[n]);
    }
  }

  /** An entry whose slug an earlier entry had finds both of its files
      already written. */
  lemma EarlierSlugWritten(roster: seq<Employee>, i: int, e: Employee)
    requires 0 <= i < |roster| && SlugOf(roster[i]) == SlugOf(e)
    ensures QrFile(e) in WrittenFiles(roster) && CardFile(e) in WrittenFiles(roster)
  {
    RosterFilesWritten(roster, i);
    OutputFilesBySlug(e, roster[i]);
  }

  lemma SharedSlugWitness(roster: seq<Employee>, i: int, j: int)
    requires 0 <= i < j < |roster| && SlugOf(roster[i]) == SlugOf(roster[j])
    ensures !DistinctSlugs(roster)
  {
  }

  lemma {:induction false} SharedSlugWrittenCount(roster: seq<Employee>)
    requires !DistinctSlugs(roster)
    ensures |WrittenFiles(roster)| < 2 * |roster|
    decreases |roster|
  {
    var n := |roster| - 1;
    var prefix, e := roster[..n], roster[n];
    var i, j :| 0 <= i < j < |roster| && SlugOf(roster[i]) == SlugOf(roster[j]);
    AddNamesCount(WrittenFiles(prefix), e);
    if j == n {
      assert prefix[i] == roster[i];
      EarlierSlugWritten(prefix, i, e);
      WrittenCountBound(prefix);
    } else {
      assert prefix[i] == roster[i] && prefix[j] == roster[j];
      SharedSlugWitness(prefix, i, j);
      SharedSlugWrittenCount(prefix);
    }
  }

  /** Every entry gets its own two files exactly when no two entries share a
      slug; a shared slug makes the later entry overwrite the earlier one. */
  lemma FileCountMatchesRoster(roster: seq<Employee>)
    ensures |GenerateAll(roster)| == 2 * |roster| <==> DistinctSlugs(roster)
  {
    WrittenFilesAreKeys(roster);
    if DistinctSlugs(roster) {
      DistinctSlugsWrittenCount(roster);
    } else {
      SharedSlugWrittenCount(roster);
    }
  }

  /** The preferred URL of the card is the QR payload, and the slug can be
      read back out of it. */
  lemma CardUrlMatchesQrPayload(e: Employee)
    ensures CardLines(e)[8] == PrefUrlKey + QrPayload(e)
    ensures NoNewlineFields(e) ==> ParseCard(GenerateVCard(e)) == Some(FieldsOf(e))
                                   && FieldsOf(e).prefUrl == QrPayload(e)
    ensures SlugOfProfileUrl(QrPayload(e)) == Some(SlugOf(e))
  {
    CardRoundTrip(e);
    ProfileUrlRoundTrip(SlugOf(e));
  }
}
