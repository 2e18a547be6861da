# The embedded translations header

`translations/generate_translations_header.c` is a small compiler. It takes a list of files and
prints a C++ header, `translation_files.h`, which holds the bytes of each file in a
`std::string`, a table of pointers to those strings that ends in a row of NULLs, and a function
`find_embedded_file` that looks a file up by name. The wallet includes that header to find its
translations.

This project models the generator and proves what the header is for: **read as C++ and run, the
header answers every lookup with the exact bytes of the first file of that name, or says that
there is none and leaves the caller's string alone** (`Theorems.HeaderIsCorrect`, and from the
arguments of a run `Runs.RunIsCorrect`), and exactly when it does so.

## How it is laid out

The generator:

- `Basics`, `Numerals`: bytes, arguments, numbers as `printf` prints them and as C++ reads them.
- `HeaderText`: the text of the header as a function of the files.
- `Generator`: the process itself, with its open files, its input position, its output and the
  trace of what it does to files; every loop of `main` is a loop here.

C++, from the rules of ISO/IEC 14882:2017 and not from the printer:

- `Lexer`: lines are spliced, then characters become tokens, one character at a time, every token
  as long as it can be; a hexadecimal escape has no bound on its digits.
- `Preprocessor`: conditional groups, empty macros, `#include <string>`, without which nothing is
  known of `std`, and concatenation of adjacent string literals, each decoded on its own.
- `Syntax`, `Parser`: the declarations, statements and expressions the header is written in.
- `Program`: static initialization in the order of the text. An identifier is declared once, an
  address is that of a string declared before, a constructor reads no further than the zero that
  ends a literal.
- `Machine`: running a function. Reading outside an array, through NULL or before assignment
  is undefined behaviour, a result of its own; `fuel` bounds how often a loop goes round.

Each phase accepts a text, calls it ill-formed, or says that it is not modelled; the last two are
never confused. Ill-formed are a literal that its line does not end, an escape sequence without
its digits, a universal character name that names no character, a comment or a conditional group
that is not closed, and an identifier declared twice.

The proof that the two meet: `DataLiterals`, `Layout`, `Phases`, `Fragments`, `FixedLines`,
`FileLines`, `FileDefinitions`, `Tables`, `LookupText`, `LookupReading`, `Guard`, `Reading`,
`Loading`. The lines of the header are templates with holes; one induction shows how any template
is read, whatever fills its holes. `Numbering` has definitions and rows of joined lists, `Lacking`
the characters that printed lines do not hold.

What names do to it: `Counting` and `NameValues` (what a literal reads), `Escapes`, `Spellings` and
`Faults` (the same by the elements literals are spelled with), `Splicing`, `NameHeads`,
`Meaning` (every header without double quotes in names), `Names`, `Budget` and `Exactness` (every
header at all).

The results: `Theorems`, `Runs`, `Lookup`, `LookupMethod`, `Library`, and on what the text determines
`Injectivity`, `Uniqueness`, `Twins`, `Scanning`.

Lemmas whose contracts mention recursive functions carry `{:induction false}`: no proof leaves an
induction to the verifier.

## What holds, and exactly when

The generator prints names without escaping them and closes a literal it may not have opened, so
properties one would expect hold under a condition. A name is called plain when it holds no double
quote, no backslash and no newline.

- A name without a double quote stays inside its literal. Its constant reads back as the name if
  and only if the name is plain; otherwise the constant is strictly shorter or the text is
  ill-formed (`Names.QuoteFreeNameReadsBackIff`). What is not modelled there are escape sequences
  whose value C++ leaves to the implementation, such as `\q` or `\x100`. Which verdict a name gets,
  and what it reads, is stated by the elements it is spelled with (`Faults.VerdictIsBySpelling`).
- Such a list has a header that answers every lookup as the list does if and only if all names are
  plain and no file is empty (`Theorems.RightIffPlain`). What it answers otherwise is
  `Theorems.LookupFindsSpelled`, and which headers are ill-formed is `Meaning.HeaderMeans`: for an empty
  file no opening quote is printed, and the closing one opens a literal that the next newline
  breaks.
- A name with a double quote leaves its literal and reaches all of C++. For lists with such names
  the result is about the modelled part of C++ only: no header in it loads to the program of its
  files unless all names are plain and no file is empty (`Exactness.LoadsAsListedIff`). Outside
  that part there are names with quotes that do read back, since what follows the quote can be an
  expression that builds the name, for instance with a raw string and a lambda; nothing is claimed
  about those.
- The header belongs to one list of files only if and only if the list is tight: the text printed
  from the end of one name to the start of the next, for whatever bytes, does not stand in either
  of the two names (`Twins.UniqueIffTight`); a scan of the names decides it
  (`Scanning.UniqueIffScanned`). Lists without quotes in their names are tight
  (`Twins.HeaderInjective`), and there are lists of two files that are not, whatever names and
  bytes they are built from (`Twins.QuotesCollide`).

Where the standard leaves an unmatched quote undefined (section 5.4, paragraph 2), the model says
ill-formed, as the standards since C++23 do.

The comment at the head of the source says that the header goes to standard output and is called
`translations_files.h`; the code writes the file `translation_files.h`, and the model follows the
code.

## Model

| member | source | states |
|---|---|---|
| `Runs.RunIsCorrect` | translations/generate_translations_header.c:26-88 | for all plain names and readable, non-empty files, loading what a run wrote and calling the lookup answers every name with the bytes behind the first argument of that name, or false with `data` unchanged |
| `Runs.RunLoadsIffComplete` | translations/generate_translations_header.c:42-87 | for all plain names, what a run leaves on disk loads as C++ if and only if every argument could be opened and no file was empty, and is ill-formed otherwise |
| `Theorems.HeaderIsCorrect` | translations/generate_translations_header.c:26-83 | with plain names and non-empty files, reading the printed text as C++ and running its own lookup function is a first-match search of the files, for every name looked up and every start value of `data`, within one turn of the loop a row |
| `Theorems.RightIffPlain` | translations/generate_translations_header.c:26-83 | for every list without double quotes in its names and without escapes left to the implementation: every lookup answers as the list does if and only if all names are plain and no file is empty |
| `Theorems.LookupFindsSpelled` | translations/generate_translations_header.c:26-83 | for every list without double quotes in its names and with non-empty files whose names are literals: a lookup finds the bytes of the first file for which the elements of its printed name, after splicing of lines, read the name asked for up to their first zero |
| `Theorems.LookupFinds` | translations/generate_translations_header.c:26-83 | the same of the files as the reader takes them, for every such list that loads |
| `Theorems.MeantIsBySpelling` | translations/generate_translations_header.c:55-66 | what the reader takes a list for, said by elements and their values only: it is accepted as other files if and only if each of these stands for its own |
| `Theorems.RowsAgreeWithDefinitions` | translations/generate_translations_header.c:55-78 | the two loops agree: row k of the loaded table points to constants that hold the name and the bytes of file k |
| `Theorems.DeclaredOnceBeforeTable` | translations/generate_translations_header.c:55-78 | among the declarations of the header the two constants of row k stand once each, before the table |
| `Theorems.HeadersCompose` | translations/generate_translations_header.c:50-79 | looking up in the header of two lists is looking up in the header of the first and then in that of the second |
| `Exactness.LoadsAsListedIff` | translations/generate_translations_header.c:46-83 | for every list of files, whatever its names: the header loads, in the modelled part of C++, to the program of exactly these files if and only if all names are plain and no file is empty |
| `Meaning.HeaderMeans` | translations/generate_translations_header.c:46-83 | for every list without double quotes in its names: the header is the program of the files as their names read, or is ill-formed or not modelled as the first file says whose name does not end on its line or that is empty |
| `Meaning.LoadsIffNonEmpty` | translations/generate_translations_header.c:57-66 | with plain names the header loads to the program of its files if no file is empty and is ill-formed otherwise |
| `Meaning.AbortedMeans` | translations/generate_translations_header.c:51-53 | without double quotes in names, the text left when a file cannot be opened is never accepted, and is ill-formed unless a name before it is not modelled |
| `Meaning.AbortedIsPrefix` | translations/generate_translations_header.c:46-54 | that text is a proper prefix of every header that starts with the same files |
| `Meaning.IncludedTwice` | translations/generate_translations_header.c:46-47 | the include guard works: the header included twice means what it means once |
| `Names.QuoteFreeNameReadsBackIff` | translations/generate_translations_header.c:55-55 | the constant of a name without a double quote holds the name if and only if it has no backslash and no newline; otherwise the text is refused or the constant is strictly shorter |
| `NameValues.ReadsBackIffPlain` | translations/generate_translations_header.c:55-55 | the same of the literal, after splicing of lines and all escape sequences, universal character names included |
| `Faults.VerdictIsBySpelling` | translations/generate_translations_header.c:55-55 | every name without double quotes is told by its text: accepted, and with which value, if and only if elements of the standard spell it, not modelled if and only if its first fault is left to the implementation, ill-formed if and only if its first fault is any other |
| `Spellings.ReadsIffSpelled` | translations/generate_translations_header.c:55-55 | a name reads a value if and only if plain characters, simple, octal and hexadecimal escapes and universal character names, each as long as it can be, spell it and have that value |
| `Escapes.LiteralReads` | translations/generate_translations_header.c:55-55 | any row of such elements is read element by element |
| `Escapes.Utf8Reads` | translations/generate_translations_header.c:55-55 | universal character names are encoded by bytes that an independent reading of UTF-8 takes back to the code point, as few as possible |
| `Faults.LettersRead` | translations/generate_translations_header.c:55-55 | after any plain text the letters n, t, v, b, r, f, a after a backslash read 10, 9, 11, 8, 13, 12, 7 |
| `Lexer.SpliceFirst` | translations/generate_translations_header.c:55-55 | the first backslash at the end of a line goes with its newline, and nothing else before the next line |
| `Splicing.SpliceHeader` | translations/generate_translations_header.c:46-83 | joining lines that end in a backslash changes nothing in the header but names, each in its place |
| `Budget.HeaderBound` | translations/generate_translations_header.c:46-83 | whatever the names, the literals of the header hold no more characters than names and files do, and fewer if a name is not plain |
| `Twins.UniqueIffTight` | translations/generate_translations_header.c:46-83 | for every list of files: no other list has its header if and only if no seam text between two neighbours stands in their names |
| `Scanning.UniqueIffScanned` | translations/generate_translations_header.c:46-83 | that condition is decided by a scan of the names |
| `Twins.HeaderInjective` | translations/generate_translations_header.c:46-83 | a list without quotes in its names shares its header with no other list at all: number, order, names and bytes are determined, empty files included |
| `Twins.QuotesCollide` | translations/generate_translations_header.c:55-55 | for any three names and any bytes there is a list of two files, with a quote in one name, whose header is also that of another list |
| `Twins.CountsAgree` | translations/generate_translations_header.c:76-79 | headers that are equal come from equally many files, whatever the names hold |
| `Twins.LooseHasTwin` | translations/generate_translations_header.c:50-69 | a list that is not tight has a different list of the same length with the same definitions |
| `Uniqueness.DifferentMeansLoose` | translations/generate_translations_header.c:50-69 | of two different lists of one length with the same definitions the first, and so by symmetry each, is not tight |
| `Injectivity.DataUnique` | translations/generate_translations_header.c:57-66 | the bytes of a file can be read off the text that starts with them in one way only, whatever follows |
| `Injectivity.BodyInjective` | translations/generate_translations_header.c:57-65 | the printed bytes determine the bytes |
| `Numbering.DefinitionsAppend` | translations/generate_translations_header.c:50-69 | the definitions of two lists are those of the first and then those of the second with shifted numbers |
| `Loading.HeaderLoads` | translations/generate_translations_header.c:46-83 | a header whose names are literals, in logical lines, loads to exactly the name and data constants of the files, the table and the lookup function |
| `Loading.IdentsDistinct` | translations/generate_translations_header.c:55-56 | the identifiers of all definitions are pairwise distinct |
| `Loading.DeclareFiles` | translations/generate_translations_header.c:50-69 | every definition declares an identifier not declared before, and after the loop exactly the files' constants exist |
| `Loading.FileStringsAt` | translations/generate_translations_header.c:55-66 | the constants numbered k hold the name and the bytes of file k and are not touched by later files |
| `Loading.CountIsNeeded` | translations/generate_translations_header.c:66-66 | a constant made from the literal alone is its longest prefix without a zero, so it would keep the bytes if and only if there is no zero byte among them |
| `Loading.CountIsExact` | translations/generate_translations_header.c:66-66 | the constant holds the bytes of its literal if and only if the count printed is their number |
| `Loading.TableComesLast` | translations/generate_translations_header.c:71-80 | a table printed before the definitions is not accepted |
| `Loading.NumbersAreNeeded` | translations/generate_translations_header.c:55-56 | definitions printed twice with the same numbers are ill-formed |
| `Library.StringsNeedInclude` | translations/generate_translations_header.c:48-48 | any text at all: if it is accepted and declares a string, it includes `<string>` |
| `Loading.SearchIsFirstMatch` | translations/generate_translations_header.c:76-79 | searching the table of the header is searching the list of files, and it never runs past the last row |
| `Reading.HeaderDeclares` | translations/generate_translations_header.c:46-83 | the phases before and including parsing give two constants a file, then the table, then the function, in that order |
| `Guard.TakePrologue` | translations/generate_translations_header.c:46-48 | the guard's group is kept the first time, with the library included, and dropped when its macro is defined |
| `FileDefinitions.DefinitionReads` | translations/generate_translations_header.c:55-66 | the text of one definition is the tokens of its two constants, the data literals joined to one that reads the bytes |
| `FileDefinitions.ParseNameDecl` | translations/generate_translations_header.c:55-55 | the name constant is parsed as declared from what its literal reads |
| `FileDefinitions.ParseDataDecl` | translations/generate_translations_header.c:56-66 | the data constant is parsed as declared from the bytes and a count that is their number |
| `DataLiterals.BodyIsLiteralLines` | translations/generate_translations_header.c:57-66 | the loop that opens a literal every 16 bytes prints one closed literal for each row of 16 |
| `DataLiterals.ChunkSizes` | translations/generate_translations_header.c:58-58 | there are ceil(n/16) rows, all of 16 bytes but the last, which has ((n-1) mod 16)+1 |
| `DataLiterals.LiteralsSize` | translations/generate_translations_header.c:57-66 | the literals of n bytes take exactly 4n + 5 ceil(n/16) characters |
| `DataLiterals.RunBody` | translations/generate_translations_header.c:57-65 | with unbounded hexadecimal escapes, after every byte the lexer is inside that byte's escape, one literal open, all full rows read |
| `DataLiterals.RunLiterals` | translations/generate_translations_header.c:57-66 | once closed, the literals read back as the rows of bytes |
| `Phases.TakeRows` | translations/generate_translations_header.c:57-66 | concatenating the literals of a file gives one literal that reads all its bytes |
| `Numerals.IntegerLiteralOfDec` | translations/generate_translations_header.c:66-66 | a printed count is read as that count, zero (an octal literal) included |
| `Numerals.DecInjective` | translations/generate_translations_header.c:55-56 | different numbers are printed differently |
| `Numerals.Hex2Read` | translations/generate_translations_header.c:64-64 | a byte is printed as two digits from 0-9 and a-f with its value |
| `Tables.TableReads` | translations/generate_translations_header.c:71-80 | the printed table is the tokens of the table for any number of files |
| `Tables.ParseTable` | translations/generate_translations_header.c:71-80 | it is parsed as rows of addresses of the files' constants, in order, and a last row of NULLs |
| `LookupReading.LookupReads` | translations/generate_translations_header.c:26-36 | the text the generator carries as a string is the tokens of the lookup function |
| `LookupReading.ParseLookupTokens` | translations/generate_translations_header.c:27-36 | it is parsed as the function whose runs are studied |
| `Lookup.CallSearches` | translations/generate_translations_header.c:27-36 | on any table a call ends, within one turn a row, as the search of the table does: hit, miss with `data` untouched, or undefined behaviour |
| `Lookup.MissMeans` | translations/generate_translations_header.c:29-35 | a miss if and only if every row before a NULL name was compared and differed |
| `Lookup.SafeIffTerminated` | translations/generate_translations_header.c:29-36 | on any table: no call has undefined behaviour if and only if some row has a NULL name, all rows before it have a name, and the first row of each name has data |
| `LookupMethod.FindEmbeddedFile` | translations/generate_translations_header.c:27-36 | the scan as a loop that writes through a reference stops at the first row of that name with its data copied, or at the NULL row with `data` unchanged |
| `LookupMethod.HeaderEntries` | translations/generate_translations_header.c:71-80 | following the pointers of the header's table gives the names and bytes of the files and a last row of NULLs |
| `LookupMethod.LoopFindsFirstMatch` | translations/generate_translations_header.c:27-36 | on these rows that loop answers the same first-match search |
| `LookupMethod.FindInHeader` | translations/generate_translations_header.c:27-36 | the loop on the header's table finds the first file of that name, or leaves `data` alone |
| `Generator.Process.OpenHeader` | translations/generate_translations_header.c:42-44 | opening the header, or failing to |
| `Generator.Process.Open` | translations/generate_translations_header.c:51-51 | opening argument i while no other input is open |
| `Generator.Process.Getc` | translations/generate_translations_header.c:57-57 | the next byte of the open input, or EOF at its end |
| `Generator.Process.WriteByte` | translations/generate_translations_header.c:58-64 | one turn of the byte loop prints the separator for j and the escape of the byte |
| `Generator.Process.WriteBytes` | translations/generate_translations_header.c:57-65 | the byte loop prints the rendering of all bytes of the input and counts them |
| `Generator.Process.WriteDefinition` | translations/generate_translations_header.c:55-67 | an opened argument adds exactly its definition, and the input is closed |
| `Generator.Process.WriteInput` | translations/generate_translations_header.c:51-68 | one turn of the argument loop |
| `Generator.Process.WriteDefinitions` | translations/generate_translations_header.c:50-69 | the argument loop prints the definitions up to the first argument that cannot be opened |
| `Generator.Process.WriteRows` | translations/generate_translations_header.c:76-78 | the table loop prints the rows for all arguments |
| `Generator.Process.WriteClosing` | translations/generate_translations_header.c:71-83 | table, lookup function and end of the guard |
| `Generator.Process.Run` | translations/generate_translations_header.c:38-88 | a whole run: whatever was on disk before, the header then is exactly the text of all files or of those before the first that cannot be opened, and is not touched if it cannot be opened itself; every event but the writes is given, so the header is opened once and first, each argument once, in order, read to its end and closed; at every step at most two files and one argument are open, what is written, read or closed is open, and in the end nothing is; the exit status is 0 if and only if the header and all arguments could be opened, and 1 otherwise |
| `Generator.DiskIsText` | translations/generate_translations_header.c:42-42 | opening the header for writing discards what it held |
| `Generator.FittingIsDisciplined` | translations/generate_translations_header.c:42-85 | counting what is opened and closed, whatever a trace does: every trace of the process has at most two files and one argument open at each step, and each write, read or close is of an open one |

## Left out

- Failing reads and writes: an input is a sequence of bytes up to its end or cannot be opened, and `fprintf` always writes; no input is `translation_files.h` itself.
- Files of more than 2147483647 bytes and argument lists of that length: the counters of the source are `int`, so contents are sequences that fit one.
- Text encodings and trigraphs: source characters are bytes and stand for themselves, universal character names in literals are encoded in UTF-8, and there are no trigraphs, as in C++17.
- The rest of C++: the reader refuses what the header does not use, among it raw and prefixed strings, character literals, digraphs, escape sequences left to the implementation, macros with a body, conditionals other than `#ifndef`, nested blocks with declarations, and parentheses in expressions. `NULL` is read as a null pointer constant.
- Machine.Invoke: arguments passed by reference are values, so a call that passes one string as both `name` and `data` is not modelled.
- Theorems.HeaderIsCorrect: for plain names, which by Theorems.RightIffPlain is the exact condition for names without double quotes; for names with double quotes see Exactness.LoadsAsListedIff.
- Exactness.LoadsAsListedIff: is a statement about the modelled part of C++, since a name with a double quote can go on with C++ of any kind.
- The wallet's side, `src/common/i18n.cpp`, which chooses a file name and decodes the file it finds: a format of its own that the generator does not look into.
- Everything else in the repository: the node, the wallets and their cryptography have nothing to do with this header.
