/** The text of the header, as a function of the files it embeds. */
module HeaderText {
  import opened Basics
  import opened Numerals

  const PROLOGUE :=
    "#ifndef TRANSLATION_FILES_H\n" +
    ("#define TRANSLATION_FILES_H\n\n" +
    INCLUDE_TEXT)

  const INCLUDE_TEXT := "#include <string>\n\n"

  /** A definition up to the name in it. */
  function NamePrefix(i: nat): string { "static const std::string translation_file_name_" + Dec(i) + " = \"" }

  function NameDecl(i: nat, name: string): string { NamePrefix(i) + name + "\";\n" }

  function DataOpen(i: nat): string {
    "static const std::string translation_file_data_" + Dec(i) + " = std::string("
  }

  /** What is printed before byte number `j`: every 16 bytes a literal is closed and another opened. */
  function Separator(j: nat): string {
    if j % 16 != 0 then "" else (if j > 0 then "\"" else "") + "\n  \""
  }

  function EscapedByte(b: Byte): string { "\\x" + Hex2(b as int) }

  /** What the loop over the bytes prints; the last literal is still open. */
  function DataBody(s: seq<Byte>): string {
    if s == [] then "" else
      var n := |s| - 1;
      DataBody(s[..n]) + Separator(n) + EscapedByte(s[n])
  }

  function DataClose(n: nat): string { "\",\n  " + Dec(n) + ");\n\n" }

  function Definition(i: nat, f: File): string {
    NameDecl(i, f.name) + DataOpen(i) + DataBody(f.contents) + DataClose(|f.contents|)
  }

  /** The definitions of `fs`, numbered from `i`. */
  function Definitions(fs: seq<File>, i: nat): string
    decreases |fs|
  {
    if fs == [] then "" else Definition(i, fs[0]) + Definitions(fs[1..], i + 1)
  }

  const TABLE_OPEN :=
    "static const struct embedded_file {\n" +
    ("  const std::string *name;\n" +
    ("  const std::string *data;\n" +
    "} embedded_files[] = {\n"))

  function Row(i: nat): string {
    "  {&translation_file_name_" + Dec(i) + ", &translation_file_data_" + Dec(i) + "},\n"
  }

  /** Rows `i` up to but not including `n`. */
  function Rows(i: nat, n: nat): string
    decreases n - i
  {
    if i >= n then "" else Row(i) + Rows(i + 1, n)
  }

  const TABLE_CLOSE := "  {NULL, NULL}\n" + "};\n\n"

  /** The function `find_embedded_file`, which the generator carries as a string. */
  const LOOKUP :=
    "static bool find_embedded_file(" + ("const std::string &name, " + ("std::string &data) {\n" +
    ("  const struct embedded_file *p;\n" + LOOKUP_LOOP)))

  const LOOKUP_LOOP :=
    "  for (" + ("p = embedded_files; " + ("p->name != NULL; " + ("p++) {\n" +
    ("    if (" + ("*p->name == name) {\n" + LOOKUP_HIT)))))

  const LOOKUP_HIT :=
    "      data = *p->data;\n" +
    ("      return true;\n" +
    ("    }\n" +
    ("  }\n" +
    ("  return false;\n" +
    "}\n"))))

  const EPILOGUE := "#endif /* TRANSLATION_FILES_H */\n"

  function Closing(count: nat): string {
    TABLE_OPEN + Rows(1, count + 1) + TABLE_CLOSE + LOOKUP + "\n" + EPILOGUE
  }

  function Header(fs: seq<File>): string {
    PROLOGUE + Definitions(fs, 1) + Closing(|fs|)
  }

  /** What is on disk when the file after `fs` cannot be opened. */
  function Aborted(fs: seq<File>): string { PROLOGUE + Definitions(fs, 1) }
}
