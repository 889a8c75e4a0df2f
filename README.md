# Open-files table of the HTML viewer/editor

This project models the tab bookkeeping of `WebViewer` in `main.py`, a
Tkinter editor for HTML/CSS/JavaScript documents. Each editor page is a
notebook page (a `ttk.Frame`). The dictionary `open_files` maps each page to
a record holding its file path, its label and its editor. The model is the
class `Tabs.TabRegistry`, which has three fields:

- `files`: a map from a freshly allocated `Frame` to
  `FileInfo(path, title, text)`.
- `order`: the pages in notebook order, which is also the insertion order
  of the dictionary.
- `selected`: the page the notebook shows.

`ShowsTrackedPage()` states that the notebook shows a page exactly when it
has pages, and that the page it shows has a record. The constructor and
`AddFileTab` establish it, and every other method preserves it. This holds
because every page the window adds goes into the table, and a close removes
the page from the notebook and from the table together.

The methods add, close, relabel, save, clear and look up records in place,
as the Python methods do.

Dialog answers, file reads and file writes are parameters:

- A dialog answer is an `Option<string>`. `None` or `""` means the dialog
  was cancelled (Python truthiness, `Tabs.Chosen`).
- A read is `ReadOk(content)` or `ReadError`.
- A write outcome is a `bool`.

Message boxes and status-bar texts are reports that the methods return:
`Written`, `WriteFailed`, `Cancelled`, `NoActiveTab`, and so on.

A record's `text` is the text of its editor widget, and every save and
preview reads that text. The `'content'` key that `add_file_tab` stores is
never read again and is never refreshed, so the model leaves it out.

The pure parts are separate modules:

- `Paths.Basename`: `os.path.basename` on POSIX paths.
- `Decimal.NatToString`: the numeral in "New File N".
- `Whitespace.Strip`: the `str.strip()` guard that refuses blank previews.
- `Common.Without`: takes a page out of the notebook order.

Some behaviours of the code are worth stating plainly:

- After a close, the code does not choose the next page to show. Tkinter
  chooses it. So `Close` takes that page as a parameter, which must be one
  of the remaining pages, or none when no page remains.
- A cancelled open dialog creates a blank page, labelled "Yeni Dosya n+1".
- A page's label is not always its file name. A custom title wins when one
  is given. Clearing a page labels it "New File n", with n the current count
  (not n + 1). So labels can repeat: `Tabs.RepeatedTitleScenario` verifies a
  run that ends with two pages labelled alike.

## Model

| member | source | states |
|---|---|---|
| `Paths.LastSep` | main.py:329 | the index of the last `/` in the path, or -1 when there is none; no `/` follows it |
| `Paths.Basename` | main.py:504 | the file name is the longest `/`-free suffix of the path |
| `Paths.BasenameOfJoin` | main.py:758 | the file name of `dir/name` is `name` whenever `name` has no `/` |
| `Decimal.NatToString` | main.py:864 | the numeral of a count: digits only, non-empty, leading zero only for 0 |
| `Decimal.ParseNatToString` | main.py:864 | reading the numeral back gives the count (round trip) |
| `Decimal.NatToStringInjective` | main.py:864 | different counts give different numerals |
| `Whitespace.TrimStart` | main.py:586 | drops exactly the leading white space (`str.isspace`) |
| `Whitespace.TrimEnd` | main.py:586 | drops exactly the trailing white space |
| `Whitespace.Strip` | main.py:586 | `text.strip()` is empty if and only if every character is white space; a non-empty result neither starts nor ends with white space |
| `Common.Without` | main.py:773 | the closed page no longer occurs in the order, and the order does not grow |
| `Common.WithoutMembers` | main.py:773-775 | every page but the closed one stays in the order, no page is added, and a duplicate-free order stays duplicate-free |
| `Common.WithoutAbsent` | main.py:771 | taking out a page that is not in the order changes nothing |
| `Common.WithoutSingle` | main.py:773 | removing a page that occurs only at index k gives `order[..k] + order[k+1..]` |
| `Tabs.TitleNumberRoundTrip` | main.py:864 | a prefix followed by the numeral of N reads back as N |
| `Tabs.NumberedTitle` | main.py:864-865 | the label `f"New File {n}"` (or `f"Yeni Dosya {n}"`, main.py:719; `f"New File {len}"`, main.py:854) carries its number n back |
| `Tabs.TabTitle` | main.py:501-504 | the label is the custom title if one is given; otherwise the path's file name if there is a path; otherwise a "New File" label whose number is count + 1 |
| `Tabs.SaveAs` | main.py:751-767 | the editor text is written to the chosen file; path and title move to it (title = file name) only when a file was chosen and the write succeeded; otherwise the record is unchanged; the text never changes |
| `Tabs.Save` | main.py:728-737 | a record with a path is written there and keeps its path and title; a record without one goes through save-as |
| `Tabs.PreviewOf` | main.py:584-589 | a preview is launched with the page's text and title if and only if the text has a non-white-space character; otherwise the user is warned |
| `Tabs.TabRegistry.constructor` | main.py:239-264 | a new window has exactly one page, labelled "📝 New File", with the start template as its text, and that page is shown |
| `Tabs.TabRegistry.AddFileTab` | main.py:498-523 | adds exactly one fresh record with the given path and text and the `TabTitle` label; appends its page to the order and shows it; leaves every other record unchanged; keeps every path-bound record labelled with its file name unless both a custom title and a path are given |
| `Tabs.TabRegistry.Close` | main.py:769-776 | a tracked page is removed from the table and from the order and nothing else is removed; the selection changes only if the closed page was shown, and then to a remaining page or to none when none remain; closing an untracked page changes nothing; the shown page stays a tracked one |
| `Tabs.TabRegistry.Select` | main.py:578 | the page the notebook shows is the tracked page the user brought to the front; the table is unchanged |
| `Tabs.TabRegistry.Edit` | main.py:569-573 | typing replaces only the text of that page's record |
| `Tabs.TabRegistry.FindSelected` | main.py:781-786 | the lookup finds a record exactly when the shown page is in the table, and then it is the shown page |
| `Tabs.TabRegistry.SaveAsTab` | main.py:739-767 | save-as of a tracked page applies `SaveAs` to its record only; for an untracked page nothing happens |
| `Tabs.TabRegistry.SaveTab` | main.py:722-737 | save of a tracked page applies `Save` to its record only; for an untracked page nothing happens |
| `Tabs.TabRegistry.SaveSelected` | main.py:778-800 | save of the shown page; if no tracked page is shown, the "No active tab" warning and no change |
| `Tabs.TabRegistry.SaveAsSelected` | main.py:802-838 | save-as of the shown page; if no tracked page is shown, the warning and no change |
| `Tabs.TabRegistry.ClearSelected` | main.py:840-860 | after confirmation the shown record gets empty text, no path and the label "New File n" with n the current count; a declined confirmation or no shown tracked page changes nothing |
| `Tabs.TabRegistry.CreateNewFile` | main.py:862-866 | adds one blank, path-less page labelled "New File n+1" and shows it |
| `Tabs.TabRegistry.OpenFile` | main.py:699-720 | chosen and read: one new page with that path, its file name as label, and the file's text; read error: no change; cancelled: one blank page labelled "Yeni Dosya n+1" |
| `Tabs.TabRegistry.AddExistingFileToTab` | main.py:308-338 | chosen and read into a tracked page: that record gets the file's text, path and file name as label; cancel, read error or untracked page: no change |
| `Tabs.TabRegistry.PreviewSelected` | main.py:575-592 | no page shown: warning; an untracked page shown: nothing; otherwise the shown record's `PreviewOf` |
| `Tabs.TabRegistry.PreviewTab` | main.py:594-602 | an untracked page: nothing; otherwise that record's `PreviewOf` |

Every state-changing method also keeps three invariants:

- `Valid()`: `files` and `order` hold the same pages, each once.
- `ShowsTrackedPage()`: see above.
- `TitlesFollowPaths()`: every record bound to a file is labelled with that
  file's name. The one exception is `AddFileTab`, which keeps this only when
  it is not given both a custom title and a path. No caller gives both.

## Left out

- Widget layout, styling and the status-bar and message-box texts: pure UI. Message boxes appear only as the returned reports.
- Preview display: writing the temporary file, launching pywebview or the browser, `root.after` scheduling and best-effort deletion are I/O and external processes. Only the blank-text guard is modelled (`Tabs.PreviewOf`).
- Real file reads, writes and dialogs: they become the `answer`, `read` and `writeOk` parameters.
- `Tabs.TabRegistry.Close`: which page Tkinter shows after `notebook.forget` is the toolkit's choice. It is a parameter, not a rule.
- The trailing newline that `Text.get(1.0, END)` adds to the editor text: Tkinter behaviour. The text is treated as an opaque string.
- The HTML templates and the `default_page.html` fallback (`create_default_editor_tab`): constant strings and file I/O. The start-up template is a parameter of the constructor.
- The welcome screen and what only it reaches (`create_new_file_from_welcome`, `open_file_from_welcome`, `create_example_file`): `create_welcome_screen` (main.py:266) builds them, but nothing calls it.
- The `'editor' in file_info` checks: after `add_file_tab` returns, every record has an editor, so these checks always pass.
- `Paths.Basename`: models POSIX `posixpath.basename` (separator `/`). The Windows form (`\` separators, drive prefixes) is not modelled.
