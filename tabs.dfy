/**
 * The open-files table of the editor window (`WebViewer.open_files`) and the
 * operations that add, close, relabel, save, clear and look up its records.
 *
 * Dialog answers, file reads and file writes are parameters: a dialog answer
 * is `None` or `Some("")` when cancelled, a read returns the content or
 * fails, a write succeeds or fails.  The text of a record is the text of its
 * editor widget, which is what every save and preview reads.
 */
module Tabs {
  import opened Common
  import Paths
  import Decimal
  import Whitespace

  /** A notebook page (`ttk.Frame`); only its identity matters here. */
  class Frame {
    constructor ()
    {
    }
  }

  /** One record of `open_files`: the file the page is bound to, the label of
      the page and the text of its editor. */
  datatype FileInfo = FileInfo(path: Option<string>, title: string, text: string)

  /** The outcome of reading the chosen file. */
  datatype ReadResult = ReadOk(content: string) | ReadError

  /** What a save shows the user: the file written and the text written to
      it, the failed write, a cancelled dialog, the "No active tab found!"
      warning, or nothing at all (a page that is not in the table). */
  datatype SaveReport =
    | Written(path: string, text: string)
    | WriteFailed(path: string)
    | Cancelled
    | NoActiveTab
    | Ignored

  /** What opening a file did: a page with the file, a read error, or (the
      dialog was cancelled) a blank page. */
  datatype OpenReport =
    | Opened(tab: Frame)
    | OpenFailed(path: string)
    | OpenedBlank(tab: Frame)

  /** What loading a file into an existing page did. */
  datatype LoadReport =
    | Loaded(path: string)
    | LoadFailed(path: string)
    | LoadCancelled
    | LoadIgnored

  /** What clearing the shown page did. */
  datatype ClearReport = Cleared | ClearDeclined | ClearNoActiveTab

  /** What a preview request does: open a preview of this text under this
      title, warn that there is nothing to show, warn that no page is shown,
      or nothing. */
  datatype PreviewAction =
    | Launch(text: string, title: string)
    | WarnBlank
    | WarnNoActiveTab
    | NoAction

  /** Python truthiness of a `str` or `None`: a dialog answer that names a
      file, a path that is set. */
  predicate Chosen(s: Option<string>) {
    s.Some? && s.value != ""
  }

  const NewFilePrefix: string := "New File "
  const BlankFilePrefix: string := "Yeni Dosya "
  const StartPageTitle: string := "📝 New File"

  /** The number a numbered label carries, if `t` is one. */
  function TitleNumber(prefix: string, t: string): Option<nat> {
    if |prefix| < |t| && t[..|prefix|] == prefix
       && Decimal.IsDigits(t[|prefix|..])
       && (t[|prefix|] != '0' || |t| == |prefix| + 1)
    then Some(Decimal.ParseDecimal(t[|prefix|..]))
    else None
  }

  /** A prefix followed by the numeral of `n` reads back as `n`. */
  lemma {:induction false} TitleNumberRoundTrip(prefix: string, n: nat)
    ensures TitleNumber(prefix, prefix + Decimal.NatToString(n)) == Some(n)
  {
    var t := prefix + Decimal.NatToString(n);
    assert t[..|prefix|] == prefix;
    assert t[|prefix|..] == Decimal.NatToString(n);
    Decimal.ParseNatToString(n);
  }

  /** `f"{prefix}{n}"`: the numbered label of an unsaved page, which carries
      its number back. */
  function NumberedTitle(prefix: string, n: nat): (t: string)
    ensures TitleNumber(prefix, t) == Some(n)
  {
    TitleNumberRoundTrip(prefix, n);
    prefix + Decimal.NatToString(n)
  }

  /** The label of a new page: the custom title when one is given, else the
      file name of the path, else "New File n+1" for `count` pages. */
  function TabTitle(custom: Option<string>, path: Option<string>, count: nat): (t: string)
    ensures Chosen(custom) ==> t == custom.value
    ensures !Chosen(custom) && Chosen(path) ==> t == Paths.Basename(path.value)
    ensures !Chosen(custom) && !Chosen(path) ==> TitleNumber(NewFilePrefix, t) == Some(count + 1)
  {
    if Chosen(custom) then custom.value
    else if Chosen(path) then Paths.Basename(path.value)
    else NumberedTitle(NewFilePrefix, count + 1)
  }

  /** Save-as of one record: the write goes to the chosen file, and only a
      successful write moves the record's path and title to it. */
  function SaveAs(info: FileInfo, answer: Option<string>, writeOk: bool): (r: (FileInfo, SaveReport))
    ensures r.0.text == info.text
    ensures r.1.Written? <==> Chosen(answer) && writeOk
    ensures r.1.Written? ==>
              r.1 == Written(answer.value, info.text) && r.0 == FileInfo(answer, Paths.Basename(answer.value), info.text)
    ensures !r.1.Written? ==> r.0 == info
    ensures !Chosen(answer) ==> r.1 == Cancelled
    ensures Chosen(answer) && !writeOk ==> r.1 == WriteFailed(answer.value)
  {
    if !Chosen(answer) then (info, Cancelled)
    else if !writeOk then (info, WriteFailed(answer.value))
    else (info.(path := answer, title := Paths.Basename(answer.value)), Written(answer.value, info.text))
  }

  /** Save of one record: a record bound to a file is written there and
      keeps its path and title; an unbound one goes through save-as. */
  function Save(info: FileInfo, answer: Option<string>, writeOk: bool): (r: (FileInfo, SaveReport))
    ensures Chosen(info.path) ==> r.0 == info
    ensures Chosen(info.path) ==> r.1 == if writeOk then Written(info.path.value, info.text)
                                         else WriteFailed(info.path.value)
    ensures !Chosen(info.path) ==> r == SaveAs(info, answer, writeOk)
  {
    if Chosen(info.path) then
      (info, if writeOk then Written(info.path.value, info.text) else WriteFailed(info.path.value))
    else SaveAs(info, answer, writeOk)
  }

  /** The preview guard: a text that is white space only is refused. */
  function PreviewOf(info: FileInfo): (a: PreviewAction)
    ensures a.Launch? <==> Whitespace.HasVisible(info.text)
    ensures a.Launch? ==> a == Launch(info.text, info.title)
    ensures !a.Launch? ==> a == WarnBlank
  {
    if Whitespace.Strip(info.text) != [] then Launch(info.text, info.title) else WarnBlank
  }

  /** The table of open files of one editor window. */
  class TabRegistry {
    /** `open_files`: one record per page of the notebook. */
    var files: map<Frame, FileInfo>
    /** The pages in notebook order, which is also the insertion order of
        `open_files`. */
    var order: seq<Frame>
    /** The page the notebook shows, if any (see `ShowsTrackedPage`). */
    var selected: Option<Frame>

    /** `files` and `order` hold the same pages, each once. */
    ghost predicate Valid()
      reads this
    {
      && NoDuplicates(order)
      && (forall i :: 0 <= i < |order| ==> order[i] in files)
      && (forall f :: f in files ==> f in order)
    }

    /** The notebook shows a page exactly when it has pages, and the page it
        shows is one of the table's: every page the window adds is added to
        the table, and a closed page leaves both together. */
    ghost predicate ShowsTrackedPage()
      reads this
    {
      && (selected.None? <==> order == [])
      && (selected.Some? ==> selected.value in files)
    }

    /** Every record bound to a file is labelled with that file's name. */
    ghost predicate TitlesFollowPaths()
      reads this
    {
      forall f :: f in files && Chosen(files[f].path) ==> files[f].title == Paths.Basename(files[f].path.value)
    }

    /** A new window: the table starts empty and the start-up page (whose
        text is the built-in template `startPage`) is added to it. */
    constructor (startPage: string)
      ensures Valid() && ShowsTrackedPage() && TitlesFollowPaths()
      ensures |order| == 1 && selected == Some(order[0])
      ensures files == map[order[0] := FileInfo(None, StartPageTitle, startPage)]
    {
      files := map[];
      order := [];
      selected := None;
      new;
      var f := AddFileTab(None, startPage, Some(StartPageTitle));
    }

    /** `add_file_tab`: a new page with the given path and text, labelled by
        `TabTitle`, appended to the notebook and shown. */
    method AddFileTab(path: Option<string>, content: string, custom: Option<string>) returns (f: Frame)
      requires Valid()
      modifies this
      ensures Valid()
      ensures fresh(f) && f !in old(files) && |files| == |old(files)| + 1
      ensures files == old(files)[f := FileInfo(path, TabTitle(custom, path, |old(files)|), content)]
      ensures forall g :: g in old(files) ==> g in files && files[g] == old(files)[g]
      ensures order == old(order) + [f]
      ensures selected == Some(f) && ShowsTrackedPage()
      ensures old(TitlesFollowPaths()) && !(Chosen(custom) && Chosen(path)) ==> TitlesFollowPaths()
    {
      var title := TabTitle(custom, path, |files|);
      f := new Frame();
      files := files[f := FileInfo(path, title, content)];
      order := order + [f];
      selected := Some(f);
    }

    /** `close_file_tab`: a page in the table leaves the table and the
        notebook; any other page is left alone.  When the closed page was the
        shown one, the notebook shows `shownAfter`, a choice the toolkit
        makes among the pages that remain (none when none remain). */
    method Close(f: Frame, shownAfter: Option<Frame>)
      requires Valid()
      requires shownAfter.None? || shownAfter.value in Without(order, f)
      requires shownAfter.None? <==> Without(order, f) == []
      modifies this
      ensures Valid()
      ensures old(ShowsTrackedPage()) ==> ShowsTrackedPage()
      ensures f in old(files) ==> files == old(files) - {f} && |files| == |old(files)| - 1
      ensures f in old(files) ==> forall k :: 0 <= k < |old(order)| && old(order)[k] == f ==>
                                     order == old(order)[..k] + old(order)[k + 1..]
      ensures f in old(files) ==> selected == if old(selected) == Some(f) then shownAfter else old(selected)
      ensures f !in old(files) ==> files == old(files) && order == old(order) && selected == old(selected)
      ensures old(TitlesFollowPaths()) ==> TitlesFollowPaths()
    {
      if f in files {
        WithoutMembers(order, f);
        forall k | 0 <= k < |order| && order[k] == f
          ensures Without(order, f) == order[..k] + order[k + 1..]
        {
          WithoutSingle(order, f, k);
        }
        files := files - {f};
        order := Without(order, f);
        if selected == Some(f) {
          selected := shownAfter;
        }
      }
    }

    /** The user brings one of the table's pages to the front of the
        notebook. */
    method Select(shown: Frame)
      requires Valid() && shown in files
      modifies this
      ensures selected == Some(shown) && files == old(files) && order == old(order)
      ensures ShowsTrackedPage()
    {
      selected := Some(shown);
    }

    /** The user replaces the text in the editor of page `f`. */
    method Edit(f: Frame, text: string)
      requires Valid()
      modifies this
      ensures Valid() && order == old(order) && selected == old(selected)
      ensures old(ShowsTrackedPage()) ==> ShowsTrackedPage()
      ensures files == if f in old(files) then old(files)[f := old(files)[f].(text := text)] else old(files)
      ensures old(TitlesFollowPaths()) ==> TitlesFollowPaths()
    {
      if f in files {
        files := files[f := files[f].(text := text)];
      }
    }

    /** The lookup of the shown page among the records: a walk over the
        table comparing each page with the one the notebook shows. */
    method FindSelected() returns (found: Option<Frame>)
      requires Valid()
      ensures found.Some? <==> selected.Some? && selected.value in files
      ensures found.Some? ==> found == selected
    {
      if selected.None? {
        return None;
      }
      var i := 0;
      while i < |order|
        invariant 0 <= i <= |order|
        invariant forall k :: 0 <= k < i ==> order[k] != selected.value
      {
        if order[i] == selected.value {
          return Some(order[i]);
        }
        i := i + 1;
      }
      return None;
    }

    /** `save_as_file_tab`: save-as of page `f`; nothing happens for a page
        that is not in the table. */
    method SaveAsTab(f: Frame, answer: Option<string>, writeOk: bool) returns (report: SaveReport)
      requires Valid()
      modifies this
      ensures Valid() && order == old(order) && selected == old(selected)
      ensures old(ShowsTrackedPage()) ==> ShowsTrackedPage()
      ensures f !in old(files) ==> report == Ignored && files == old(files)
      ensures f in old(files) ==> var r := SaveAs(old(files)[f], answer, writeOk);
                                  report == r.1 && files == old(files)[f := r.0]
      ensures old(TitlesFollowPaths()) ==> TitlesFollowPaths()
    {
      if f !in files {
        return Ignored;
      }
      var r := SaveAs(files[f], answer, writeOk);
      files := files[f := r.0];
      report := r.1;
    }

    /** `save_file_tab`: save of page `f`; nothing happens for a page that
        is not in the table. */
    method SaveTab(f: Frame, answer: Option<string>, writeOk: bool) returns (report: SaveReport)
      requires Valid()
      modifies this
      ensures Valid() && order == old(order) && selected == old(selected)
      ensures old(ShowsTrackedPage()) ==> ShowsTrackedPage()
      ensures f !in old(files) ==> report == Ignored && files == old(files)
      ensures f in old(files) ==> var r := Save(old(files)[f], answer, writeOk);
                                  report == r.1 && files == old(files)[f := r.0]
      ensures old(TitlesFollowPaths()) ==> TitlesFollowPaths()
    {
      if f !in files {
        return Ignored;
      }
      if Chosen(files[f].path) {
        var info := files[f];
        report := if writeOk then Written(info.path.value, info.text) else WriteFailed(info.path.value);
      } else {
        report := SaveAsTab(f, answer, writeOk);
      }
    }

    /** `save_file`: save of the shown page, or the "No active tab found!"
        warning when the notebook shows no page of the table. */
    method SaveSelected(answer: Option<string>, writeOk: bool) returns (report: SaveReport)
      requires Valid()
      modifies this
      ensures Valid() && order == old(order) && selected == old(selected)
      ensures old(ShowsTrackedPage()) ==> ShowsTrackedPage()
      ensures !(old(selected).Some? && old(selected).value in old(files)) ==>
                report == NoActiveTab && files == old(files)
      ensures old(selected).Some? && old(selected).value in old(files) ==>
                var f := old(selected).value;
                var r := Save(old(files)[f], answer, writeOk);
                report == r.1 && files == old(files)[f := r.0]
      ensures old(TitlesFollowPaths()) ==> TitlesFollowPaths()
    {
      var found := FindSelected();
      if found.None? {
        return NoActiveTab;
      }
      report := SaveTab(found.value, answer, writeOk);
    }

    /** `save_as_file`: save-as of the shown page, or the "No active tab
        found!" warning when the notebook shows no page of the table. */
    method SaveAsSelected(answer: Option<string>, writeOk: bool) returns (report: SaveReport)
      requires Valid()
      modifies this
      ensures Valid() && order == old(order) && selected == old(selected)
      ensures old(ShowsTrackedPage()) ==> ShowsTrackedPage()
      ensures !(old(selected).Some? && old(selected).value in old(files)) ==>
                report == NoActiveTab && files == old(files)
      ensures old(selected).Some? && old(selected).value in old(files) ==>
                var f := old(selected).value;
                var r := SaveAs(old(files)[f], answer, writeOk);
                report == r.1 && files == old(files)[f := r.0]
      ensures old(TitlesFollowPaths()) ==> TitlesFollowPaths()
    {
      var found := FindSelected();
      if found.None? {
        return NoActiveTab;
      }
      report := SaveAsTab(found.value, answer, writeOk);
    }

    /** `clear_content`: after the user confirms, the shown page loses its
        text and its file and is relabelled "New File n" for the current
        count n (not n + 1). */
    method ClearSelected(confirmed: bool) returns (report: ClearReport)
      requires Valid()
      modifies this
      ensures Valid() && order == old(order) && selected == old(selected)
      ensures old(ShowsTrackedPage()) ==> ShowsTrackedPage()
      ensures !(old(selected).Some? && old(selected).value in old(files)) ==>
                report == ClearNoActiveTab && files == old(files)
      ensures old(selected).Some? && old(selected).value in old(files) && !confirmed ==>
                report == ClearDeclined && files == old(files)
      ensures old(selected).Some? && old(selected).value in old(files) && confirmed ==>
                report == Cleared &&
                files == old(files)[old(selected).value := FileInfo(None, NumberedTitle(NewFilePrefix, |old(files)|), "")]
      ensures old(TitlesFollowPaths()) ==> TitlesFollowPaths()
    {
      var found := FindSelected();
      if found.None? {
        return ClearNoActiveTab;
      }
      if !confirmed {
        return ClearDeclined;
      }
      files := files[found.value := FileInfo(None, NumberedTitle(NewFilePrefix, |files|), "")];
      report := Cleared;
    }

    /** `create_new_file`: a blank page labelled "New File n+1". */
    method CreateNewFile() returns (f: Frame)
      requires Valid()
      modifies this
      ensures Valid()
      ensures fresh(f) && f !in old(files)
      ensures files == old(files)[f := FileInfo(None, NumberedTitle(NewFilePrefix, |old(files)| + 1), "")]
      ensures order == old(order) + [f] && selected == Some(f) && ShowsTrackedPage()
      ensures old(TitlesFollowPaths()) ==> TitlesFollowPaths()
    {
      f := AddFileTab(None, "", Some(NumberedTitle(NewFilePrefix, |files| + 1)));
    }

    /** `open_file`: a chosen and readable file gets a new page labelled with
        its file name; an unreadable one gets none; a cancelled dialog gets a
        blank page labelled "Yeni Dosya n+1". */
    method OpenFile(answer: Option<string>, read: ReadResult) returns (report: OpenReport)
      requires Valid()
      modifies this
      ensures Valid()
      ensures old(ShowsTrackedPage()) ==> ShowsTrackedPage()
      ensures Chosen(answer) && read.ReadOk? ==>
                && report.Opened? && fresh(report.tab) && report.tab !in old(files)
                && files == old(files)[report.tab := FileInfo(answer, Paths.Basename(answer.value), read.content)]
                && order == old(order) + [report.tab] && selected == Some(report.tab)
      ensures Chosen(answer) && read.ReadError? ==>
                report == OpenFailed(answer.value)
                && files == old(files) && order == old(order) && selected == old(selected)
      ensures !Chosen(answer) ==>
                && report.OpenedBlank? && fresh(report.tab) && report.tab !in old(files)
                && files == old(files)[report.tab := FileInfo(None, NumberedTitle(BlankFilePrefix, |old(files)| + 1), "")]
                && order == old(order) + [report.tab] && selected == Some(report.tab)
      ensures old(TitlesFollowPaths()) ==> TitlesFollowPaths()
    {
      if Chosen(answer) {
        match read
        case ReadOk(content) =>
          var f := AddFileTab(answer, content, None);
          report := Opened(f);
        case ReadError =>
          report := OpenFailed(answer.value);
      } else {
        var f := AddFileTab(None, "", Some(NumberedTitle(BlankFilePrefix, |files| + 1)));
        report := OpenedBlank(f);
      }
    }

    /** `add_existing_file_to_tab`: a chosen and readable file replaces the
        text of page `f` and binds the page to it.  The file is read before
        the page is looked up, so a read error is reported for any page. */
    method AddExistingFileToTab(f: Frame, answer: Option<string>, read: ReadResult) returns (report: LoadReport)
      requires Valid()
      modifies this
      ensures Valid() && order == old(order) && selected == old(selected)
      ensures old(ShowsTrackedPage()) ==> ShowsTrackedPage()
      ensures !Chosen(answer) ==> report == LoadCancelled && files == old(files)
      ensures Chosen(answer) && read.ReadError? ==> report == LoadFailed(answer.value) && files == old(files)
      ensures Chosen(answer) && read.ReadOk? && f !in old(files) ==> report == LoadIgnored && files == old(files)
      ensures Chosen(answer) && read.ReadOk? && f in old(files) ==>
                report == Loaded(answer.value) &&
                files == old(files)[f := FileInfo(answer, Paths.Basename(answer.value), read.content)]
      ensures old(TitlesFollowPaths()) ==> TitlesFollowPaths()
    {
      if !Chosen(answer) {
        return LoadCancelled;
      }
      match read
      case ReadError =>
        report := LoadFailed(answer.value);
      case ReadOk(content) =>
        if f in files {
          files := files[f := FileInfo(answer, Paths.Basename(answer.value), content)];
          report := Loaded(answer.value);
        } else {
          report := LoadIgnored;
        }
    }

    /** `show_preview`: the preview of the shown page.  When the notebook
        shows nothing the user is warned.  The code does nothing when the
        shown page has no record; under `ShowsTrackedPage` that case does
        not arise, but the method keeps the code's branch. */
    method PreviewSelected() returns (action: PreviewAction)
      requires Valid()
      ensures selected.None? ==> action == WarnNoActiveTab
      ensures selected.Some? && selected.value !in files ==> action == NoAction
      ensures selected.Some? && selected.value in files ==> action == PreviewOf(files[selected.value])
    {
      if selected.None? {
        return WarnNoActiveTab;
      }
      var found := FindSelected();
      if found.None? {
        return NoAction;
      }
      action := PreviewOf(files[found.value]);
    }

    /** `show_file_preview`: the preview of page `f`; nothing happens for a
        page that is not in the table. */
    method PreviewTab(f: Frame) returns (action: PreviewAction)
      ensures f !in files ==> action == NoAction
      ensures f in files ==> action == PreviewOf(files[f])
    {
      if f !in files {
        return NoAction;
      }
      action := PreviewOf(files[f]);
    }
  }

  /** Labels of blank pages come from the current count, so two pages can
      carry the same label: after two new files and closing the first, the
      next new file is labelled like the one still open. */
  method RepeatedTitleScenario(startPage: string)
  {
    var r := new TabRegistry(startPage);
    var a := r.CreateNewFile();
    var b := r.CreateNewFile();
    WithoutMembers(r.order, a);
    assert r.order[|r.order| - 1] == b;
    r.Close(a, Some(b));
    var c := r.CreateNewFile();
    assert b != c;
    assert r.files[b].title == r.files[c].title == NumberedTitle(NewFilePrefix, 3);
  }
}
