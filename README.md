# CuePoint: the RichMedia cue point dictionary

iText's `CuePoint` is a PDF dictionary from the Adobe Supplement to ISO 32000,
ExtensionLevel 3. It ties a cue point in Flash content, matched by its `Name`
or `Time` entry, to the action that runs when playback reaches that point. The
class extends `PdfDictionary`. Its constructor stores the subtype. Its three
setters each `put` one entry: `Name`, `Time` or `A` (the action). Only
`setAction` checks its argument: it takes a dictionary or an indirect reference
and throws `IllegalPdfSyntaxException` for anything else.

The model has two modules.

- `PdfObjects` (`pdf_objects.dfy`) defines the objects the dictionary holds.
  `Name` is a PDF name, compared by its text. `Value` is a PDF object tagged by
  its runtime kind: `NameVal`, `Str`, `Num`, `Dict`, `IndirectRef` or `Other`.
  `Dict` stands for `PdfDictionary` and every subclass of it, so a `PdfStream`
  (which extends `PdfDictionary`) is a `Dict` and is accepted as an action.
  `Put` inserts an entry, or overwrites the existing one, in a
  `map<Name, Value>`.
- `RichMedia` (`cue_point.dfy`) holds the cue point itself.
  - It specifies each operation as a pure function on the entries:
    `NewCuePoint`, `WithName`, `WithTime` and `WithAction`.
  - The class `CuePoint` keeps the inherited dictionary as its `entries`
    field. Its constructor and setters update that field in place, and each is
    proved equal to its pure function.
  - `setAction`'s exception becomes an `Outcome`: `Pass`, or `Fail` carrying an
    `IllegalPdfSyntax` error with the source's message.
  - `Run` replays a sequence of setter calls. In it, a refused `setAction`
    leaves the entries unchanged, as in a caller that catches the exception.
    The lemmas about `Run` hold for every sequence of calls.

The `Type` entry is an assumption about the base class. The constructor passes
`PdfName.CUEPOINT` to the `PdfDictionary(PdfName type)` constructor, whose code
is not part of this model. The model assumes that this constructor stores the
name under `Type`, so a new cue point holds exactly `Type` and `Subtype`.

`setTime` takes a Java `int`, so its parameter is the newtype `Int32`. The
number stored under `Time` is that integer unchanged; there is no range check.

## Model

| member | source | states |
|---|---|---|
| `PdfObjects.Put` | itext/src/core/com/lowagie/text/pdf/richmedia/CuePoint.java:83 | the inherited `put`: the value is stored under the key, replacing any earlier value; the keys become the old keys plus this one; every other entry is unchanged |
| `RichMedia.NewCuePoint` | itext/src/core/com/lowagie/text/pdf/richmedia/CuePoint.java:81-84 | a new cue point holds exactly two keys: `Type`, equal to `CuePoint`, and `Subtype`, equal to the argument; any subtype name is accepted, not only `Navigation` or `Event` |
| `RichMedia.CuePoint.constructor` | itext/src/core/com/lowagie/text/pdf/richmedia/CuePoint.java:81-84 | the object's entries are `NewCuePoint(subtype)` |
| `RichMedia.WithName` | itext/src/core/com/lowagie/text/pdf/richmedia/CuePoint.java:91-93 | `Name` holds exactly the given string, which replaces any earlier name; the only key that can be added is `Name`; every other entry is unchanged |
| `RichMedia.CuePoint.SetName` | itext/src/core/com/lowagie/text/pdf/richmedia/CuePoint.java:91-93 | the new entries are `WithName` of the old entries, which is `After` of the old entries for the call `SetName(name)`, so the call-sequence lemmas apply to the object |
| `RichMedia.WithTime` | itext/src/core/com/lowagie/text/pdf/richmedia/CuePoint.java:100-102 | `Time` holds a number equal to the given int (zero and negative values included); the only key that can be added is `Time`; every other entry is unchanged |
| `RichMedia.CuePoint.SetTime` | itext/src/core/com/lowagie/text/pdf/richmedia/CuePoint.java:100-102 | the new entries are `WithTime` of the old entries, which is `After` of the old entries for the call `SetTime(time)` |
| `RichMedia.WithAction` | itext/src/core/com/lowagie/text/pdf/richmedia/CuePoint.java:110-116 | succeeds exactly when the action is a dictionary or an indirect reference, and then `A` holds the action and every other entry is unchanged; otherwise it fails with the error "An action should be defined as a dictionary" |
| `RichMedia.CuePoint.SetAction` | itext/src/core/com/lowagie/text/pdf/richmedia/CuePoint.java:110-116 | passes exactly when the action is a dictionary or an indirect reference, and the new entries are then those of `WithAction`; otherwise it fails with `WithAction`'s error and the entries, including any earlier `A`, are unchanged; either way the new entries are `After` of the old entries for the call `SetAction(action)` |
| `RichMedia.After` | itext/src/core/com/lowagie/text/pdf/richmedia/CuePoint.java:91-116 | one setter call: an accepted call stores its value under its own key; a refused call changes nothing; no entry under any other key changes |
| `RichMedia.Run` | itext/src/core/com/lowagie/text/pdf/richmedia/CuePoint.java:91-116 | no sequence of setter calls changes any entry outside `Name`, `Time` and `A` |
| `RichMedia.DiscriminatorSurvivesCalls` | itext/src/core/com/lowagie/text/pdf/richmedia/CuePoint.java:81-116 | after construction and any sequence of setter calls, `Type` is still `CuePoint`, `Subtype` is still the constructor's argument, and no key beyond `Type`, `Subtype`, `Name`, `Time` and `A` is present |
| `RichMedia.RunLeavesKey` | itext/src/core/com/lowagie/text/pdf/richmedia/CuePoint.java:91-116 | calls that write other keys, or are refused, leave the entry under a given key, or its absence, unchanged |
| `RichMedia.LastWriteWins` | itext/src/core/com/lowagie/text/pdf/richmedia/CuePoint.java:91-112 | after an accepted call, its key holds the value it stored, whatever calls came before, until a later accepted call writes the same key; later refused calls do not disturb it |
| `RichMedia.RefusedActionChangesNothing` | itext/src/core/com/lowagie/text/pdf/richmedia/CuePoint.java:110-116 | a refused `setAction` anywhere in a sequence of calls leaves the same entries as the sequence without it, so an earlier action stays in place |
| `RichMedia.CuePointIsAnAction` | itext/src/core/com/lowagie/text/pdf/richmedia/CuePoint.java:110-112 | another cue point, being a dictionary, is accepted as an action and stored under `A`, whatever setter calls were made on it before |

## Left out

- The internals of `PdfDictionary`, `PdfName`, `PdfString`, `PdfNumber` and `PdfIndirectReference` are not part of this model. That covers name interning, hashing, and how `put` handles null or `PdfNull`. Names are compared by their text, and `put` is plain map insertion or overwrite.
- Null arguments are not modelled: Dafny values cannot be null, so every setter receives an object, as a precondition on callers would require.
- Objects are modelled as values, not references. `setAction` stores a reference to the action object in Java, so later changes to that object show through the `A` entry. The model stores a snapshot of the action's entries instead. It does not capture later changes to a stored dictionary, or a cue point set as its own action (a cycle), which a datatype value cannot represent.
- The byte content of a `PdfStream` is not modelled. A stream is a `Dict` of its dictionary entries.
- `PdfNumber` is modelled by the integer it holds. How it stores that number internally is left out.
- `PdfString` is modelled by its text. Its encoding and byte form are left out.
- The `Type` entry is an assumption about the unseen `PdfDictionary(PdfName)` constructor.
- Serialising the dictionary to PDF bytes is left out. That is the writer's job, not this class's.
- Resolving an indirect reference to the object it points at is left out. That belongs to document I/O, not to this class.
- Playback behaviour is left out. Matching FLV or Flash cue points at run time is only described in the class comment, not implemented.
- The Java exception class hierarchy is left out. The exception is modelled only as an `IllegalPdfSyntax` error value carrying its message.
- `DiscriminatorSurvivesCalls`: holds only for the three setters. The inherited public `put` and `remove` of `PdfDictionary` can still overwrite `Type` or `Subtype`, and they are not part of this model.
