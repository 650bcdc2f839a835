# Shipwright card assets, modelled in Dafny

`generate-assets.js` produces the static assets of the Shipwright digital business cards. For every employee in a fixed roster it writes two files:

- a QR code image that encodes the employee's profile address;
- a contact card in vCard 3.0 style.

This project models the string logic behind those files and proves its properties:

- the slug derived from the first and last names;
- the phone-number normalisation;
- the profile address;
- the card text;
- the two output file names;
- the batch over the roster, in which later writes overwrite earlier ones.

The card follows the line layout of RFC 2426 with the N, FN, ORG, TEL, EMAIL and URL types. The model keeps what the script does where that differs from RFC 2426:

- lines are separated by a single LF, not CRLF;
- there is no line break after `END:VCARD`;
- `;`, `,` and line breaks inside values are not escaped.

Modules, one file each:

| file | module | contents |
|---|---|---|
| `wrappers.dfy` | `Wrappers` | `Option` |
| `ascii.dfy` | `Ascii` | digit and upper-case predicates, ASCII lower-casing |
| `roster.dfy` | `Roster` | the `Employee` record, `BASE_URL`, `COMPANY` and the five-entry roster |
| `phone.dfy` | `Phone` | `Digits` (the `replace(/\D/g, '')` of the phone number) and the TEL line |
| `slug.dfy` | `Slug` | `ToSlug`, the profile address and its reader, the two file names |
| `vcard.dfy` | `VCard` | the card lines, `GenerateVCard`, and a reader `ParseCard` for the card grammar |
| `assets.dfy` | `Assets` | the output files as a map from (directory, name) to content; `GenerateAll` folds over the roster from empty folders, `RunScript` over folders that already hold files |
| `roster_assets.dfy` | `RosterAssets` | facts about the concrete roster: John Dixon's slug, address and card, and the file count |

The card is ten lines long: BEGIN, VERSION, N, FN, ORG, TEL, EMAIL, URL WORK, URL PREF and END, with nine LFs between them.

Several operations are partnered with an independent reference so that their contracts say more than their bodies:

- `Digits` is characterised as the unique digit-only subsequence that keeps every digit.
- `ProfileUrl` has a reader, `SlugOfProfileUrl`.
- `GenerateVCard` has a reader, `ParseCard`, and the round trip is proved in both directions.
- `GenerateAll`'s map keys are described by the set `WrittenFiles`.

## Model

| member | source | states |
|---|---|---|
| Ascii.Lower | generate-assets.js:54 | Lower-casing keeps the length, maps each character on its own (A-Z to a-z, everything else unchanged) and leaves no upper-case letter |
| Ascii.LowerIdempotent | generate-assets.js:54 | Lower-casing an already lower-cased string changes nothing |
| Slug.ToSlug | generate-assets.js:53-55 | The slug is the lowered first name, one hyphen, the lowered last name; its length is the two name lengths plus one and it has no upper-case letter |
| Slug.SlugIsJoinOfLowerNames | generate-assets.js:54 | Lowering the hyphen-joined names equals joining the separately lowered names |
| Slug.SlugIsLowerCase | generate-assets.js:54 | Lower-casing a slug again gives the same slug |
| Slug.SlugOfLowerCaseNames | generate-assets.js:54 | For names without upper-case letters the slug is just first + "-" + last |
| Slug.SlugIgnoresCase | generate-assets.js:54 | Names that differ only in case give the same slug |
| Slug.SlugInjectiveWithoutHyphen | generate-assets.js:53-55 | When neither first name contains a hyphen, two slugs are equal exactly when the lowered first names and the lowered last names are equal |
| Slug.SlugCollision | generate-assets.js:53-55 | Hyphenated names can collide: ("Mary-Ann", "Lee") and ("Mary", "Ann-Lee") both give "mary-ann-lee" |
| Slug.ProfileUrl | generate-assets.js:71-78 | The profile address shared by the card and the QR code; it has no contract of its own, and `Slug.ProfileUrlRoundTrip` and `Slug.ProfileUrlOfParsedSlug` state that it and `SlugOfProfileUrl` are inverse |
| Slug.ProfileUrlRoundTrip | generate-assets.js:77-78 | The slug can be read back from the profile address built from it |
| Slug.ProfileUrlOfParsedSlug | generate-assets.js:78 | Any address the reader accepts is the profile address of the slug it yields, so the address format has one spelling per slug |
| Slug.QrFileName | generate-assets.js:79 | The QR file name; `Slug.FileNamesShareStem` states that it starts with the slug and determines it |
| Slug.VCardFileName | generate-assets.js:96 | The card file name; `Slug.FileNamesShareStem` states that it starts with the slug and determines it |
| Slug.FileNamesShareStem | generate-assets.js:79-96 | Both file names start with the slug, and each file name determines its slug |
| Phone.Digits | generate-assets.js:61 | The stripped phone holds only '0'..'9' and is no longer than the input |
| Phone.DigitsCharacterised | generate-assets.js:61 | A string is the stripped phone exactly when it is digit-only, a subsequence of the input and as long as the input's digit count |
| Phone.DigitsIdempotent | generate-assets.js:61 | Stripping twice gives the same result as stripping once |
| Phone.DigitsConcat | generate-assets.js:61 | Stripping a concatenation concatenates the stripped parts |
| Phone.DigitsFormatAgnostic | generate-assets.js:61 | "954-249-0127", "(954) 249-0127" and "9542490127" all strip to "9542490127" |
| Phone.TelLineFormatAgnostic | generate-assets.js:68 | Each of those three spellings gives the TEL line "TEL;TYPE=CELL:+19542490127" |
| Phone.TelLine | generate-assets.js:68 | The TEL line; it has no contract of its own, and `Phone.TelLineNoLengthCheck` and `Phone.TelLineFormatAgnostic` state what it produces |
| Phone.TelLineNoLengthCheck | generate-assets.js:68 | For any phone the TEL line is the fixed prefix followed by digits only, and its length is the prefix length plus the input's digit count, with no length check |
| Phone.TelLineShortNumber | generate-assets.js:68 | A seven-digit number still yields a line, "TEL;TYPE=CELL:+12490127" |
| VCard.GenerateVCard | generate-assets.js:58-73 | The card text; it has no contract of its own, and `VCard.CardFramed`, `VCard.CardLineCount`, `VCard.CardRoundTrip`, `VCard.ParsedCardIsRendered` and `VCard.CardNameFields` state what it produces |
| VCard.CardFramed | generate-assets.js:63-72 | Every card starts with "BEGIN:VCARD\nVERSION:3.0\n", ends with "\nEND:VCARD" and has no trailing line break |
| VCard.CardLinesNewlineFree | generate-assets.js:63-72 | The ten card lines are free of line breaks exactly when no field used in the card contains one |
| VCard.CardLineCount | generate-assets.js:63-72 | The card text splits into exactly ten lines iff no used field contains a line break, and then the split gives the template lines in order |
| VCard.CardRoundTrip | generate-assets.js:63-72 | Reading a generated card gives back the employee's field values when no field holds a line break, and fails otherwise |
| VCard.CardNameFields | generate-assets.js:60-68 | A reader of the card finds N = last;first;;;, FN = first space last, ORG = the company and TEL = +1 then the phone digits |
| VCard.ParsedCardIsRendered | generate-assets.js:63-72 | Any text the card reader accepts is exactly the rendering of the fields it yields |
| VCard.CardIgnoresLinkedIn | generate-assets.js:58-73 | The card does not depend on the employee's linkedin field |
| Assets.QrPayload | generate-assets.js:77-78 | The text the QR code encodes; `Assets.CardUrlMatchesQrPayload` states that it is the card's preferred URL and that the slug reads back from it |
| Assets.EmitEmployee | generate-assets.js:107-109 | One iteration of the loop; `Assets.EmitWritesOwnFiles` and `Assets.EmitKeepsOtherSlugs` state what it writes and what it leaves alone |
| Assets.GenerateAll | generate-assets.js:104-110 | The batch over the roster from empty folders; `Assets.GeneratedFiles`, `Assets.LastWriterWins` and `Assets.FileCountMatchesRoster` state which files it writes and with what content |
| Assets.RunScript | generate-assets.js:104-110 | The batch over folders that already hold files; `Assets.RunOverlaysExisting` and `Assets.StaleFilesSurvive` state how it relates to what was there |
| Assets.OutputFilesBySlug | generate-assets.js:79-96 | Two employees share a QR file (or a card file) exactly when they share a slug, and a QR file never coincides with a card file |
| Assets.EmitWritesOwnFiles | generate-assets.js:107-109 | Processing an employee writes the QR payload to its QR file and the card text to its card file |
| Assets.EmitKeepsOtherSlugs | generate-assets.js:107-109 | Processing an employee leaves the files of every other slug untouched |
| Assets.GeneratedFiles | generate-assets.js:104-110 | The files one run writes are exactly the QR and card files of the roster's entries, no others |
| Assets.RunOverlaysExisting | generate-assets.js:79-110 | The folders after a run are the files already there, overlaid by the files this run writes; nothing is cleared |
| Assets.RunKeys | generate-assets.js:104-110 | After a run the folders hold the earlier files plus those the roster writes |
| Assets.StaleFilesSurvive | generate-assets.js:79-110 | A file no roster entry writes keeps its earlier presence and content, so a stale file from an earlier roster survives |
| Assets.RunWritesOver | generate-assets.js:79-110 | A file the roster writes holds what this run wrote, whatever was there before |
| Assets.LastWriterWinsOverExisting | generate-assets.js:104-110 | Over folders that already hold files, each entry that is last with its slug decides both of its files |
| Assets.LastWriterWins | generate-assets.js:104-110 | Each file holds the content of the last roster entry with that slug |
| Assets.DuplicateSlugOverwrites | generate-assets.js:104-110 | Of two employees with the same slug, only the second one's output remains |
| Assets.FileCountBound | generate-assets.js:104-110 | The batch writes at most two files per roster entry |
| Assets.FileCountMatchesRoster | generate-assets.js:104-110 | The batch writes exactly two files per entry iff all slugs in the roster are distinct |
| Assets.CardUrlMatchesQrPayload | generate-assets.js:71-78 | The card's URL;TYPE=PREF value is exactly the address the QR code encodes, and the slug can be read back from it |
| RosterAssets.JohnDixonSlug | generate-assets.js:8-9 | The first roster entry's slug is "john-dixon" |
| RosterAssets.RosterWritesTenFiles | generate-assets.js:6-47 | The roster's five slugs are distinct, so the batch writes ten files |
| RosterAssets.JohnDixonQrPayload | generate-assets.js:8-9 | John Dixon's QR code encodes "https://cards.shipwright.biz/john-dixon.html" |
| RosterAssets.JohnDixonCard | generate-assets.js:8-13 | John Dixon's card carries N "Dixon;John;;;", FN "John Dixon", ORG "Shipwright", TEL "+19542490127", his email, the company website and his profile address, and reads back as those fields |

## Left out

- The QR image (generate-assets.js:81-88) is not modelled. `QRCode.toFile` is a third-party raster encoder, and its options (width 300, margin 2, colours) affect only pixels. A QR file's content is represented by the text it encodes.
- File system access is not modelled: `path.join` with `__dirname`, `fs.writeFileSync` (generate-assets.js:79, 96, 99) and the assumption that `assets/qr` and `assets/vcards` exist.
  - Every write is taken to succeed, so the fatal error path through `main().catch` (generate-assets.js:115) is not represented.
- Console output (generate-assets.js:90, 100, 105, 112) carries no content and is omitted.
- The awaits in `main` (generate-assets.js:104-113) only order the writes. The batch is modelled as a sequential left fold over the roster, QR file before card file for each entry.
- Output paths are a folder tag plus a file name. `path.join` (generate-assets.js:79, 96) also normalises the joined path: it collapses `//`, `/./` and `..`. Two different slugs containing `/` can therefore name the same file on disk. The model treats a slug as a plain file name, assuming names free of `/`. Keeping path-unsafe characters out of names is left to whoever edits the roster.
- Assets.OutputFilesBySlug: "same file iff same slug" holds for names free of `/`. With `/` in a name, `path.join` normalisation can make different slugs share a file.
- Assets.LastWriterWins: inherits the same assumption of names free of `/`.
- Assets.FileCountMatchesRoster: inherits the same assumption; with `/` in names the program can write fewer files than the model counts.
- Assets.GeneratedFiles: describes the files one run writes, as if the folders started empty. The script does not clear its folders; `Assets.RunScript` models the run over existing files, and `Assets.StaleFilesSurvive` states that earlier files remain.
- Ascii.Lower: lowers only 'A'..'Z'. JavaScript's `toLowerCase` follows full Unicode case mapping and can change the length of a string. The roster's names are ASCII.
- Slug.ToSlug: its length clause holds for the ASCII lowering modelled here, and would not hold for every Unicode name under JavaScript's lowering.
- Determinism of `generateVCard` needs no lemma: Dafny functions are pure, so equal employees give equal card text.
- The `linkedin` field (for example generate-assets.js:12) is never used in any output; `VCard.CardIgnoresLinkedIn` states this.
- The template at generate-assets.js:63-72 has ten lines: BEGIN, VERSION, seven content lines and END, joined by nine LFs. The model counts ten.
