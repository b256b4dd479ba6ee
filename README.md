# Auto-summariser: backend request logic and view state, in Dafny

This project models the sequential logic of the auto-summariser application
(`auto-summarizer-react/`): three Flask services and two React views.

- **Summarisation service** (`backend/summarizer.py`): `chunk_text` cuts a
  string into 1000-character slices. The `/summarizes` handler works in
  steps. It maps the summary level to a share of the input length and joins
  the user's texts with the PDF text. It rejects whitespace-only input and
  derives `min_length` and `max_length`. It summarises every chunk with
  those bounds divided by the number of chunks. Last, it joins the chunk
  summaries with blank lines.
- **Question/answer service** (`backend/qna.py`): `clean_text`,
  `format_answer` and `generate_questions`. Then `answer_questions`, and the
  `/upload` handler with its error ladder (400, 400, 500). The handler keeps
  the first generated question plus a random sample of up to five others.
- **Flashcard service** (`backend/flashcards.py`): `summarize` groups the
  sentence list into consecutive chunks of `max(1, n // max_points)` and
  makes one point per chunk. The `/uploads` handler rejects a file part
  that has no name.
- **QnA generator view** (`src/components/QnAGenerator.js`): a class with
  the fields `file`, `qnaPairs` and `error`. Its methods are
  `handleFileChange` and `handleFileUpload`.
- **Summariser view** (`src/components/Summarizer.js`): a class with the
  fields `text`, `summary`, `summaryLevel`, `pdfFiles`, `error` and
  `isLoading`. Its methods are the summarise, clear and PDF-upload handlers.

Every machine-learning model, `textwrap.wrap`, `nltk.sent_tokenize` and
`random.sample` becomes a function-typed parameter. So do the PDF
extractors of the QnA and flashcard services; the summariser's extraction
result is instead part of the request (`SummarizeRequest.pdfText`): the
text, or the message of the exception it raised. The server's reply to a view becomes an input to the handler.

The generic splitter `Chunking.Chunks` is shared by the summariser's
`chunk_text` and the flashcard sentence grouping. It is defined
recursively. `Chunking.ChunkAt` proves that it equals Python's slicing
`s[i*size : i*size + size]`.

Two facts the proofs bring out about the code:

- `combined_text = user_text + " " + pdf_text` (summarizer.py:56) always
  contains the joining space. So `no_chunks` is at least 1 on every
  request, and the division at summarizer.py:77 is safe whether or not
  the guard at line 61 rejects the input (`ChunkCountPositive`).
- `min_length = max(30, target_length // 3)` and `max_length = target_length`
  (summarizer.py:66-67) cross below 100 characters of combined text, at any
  level. The model then receives a lower bound above its upper bound
  (`ShortInputInvertsBounds`).

## Model

| member | source | states |
|---|---|---|
| `Strings.Join` | auto-summarizer-react/backend/summarizer.py:55 | joining no parts gives the empty string; a join starts with its first part |
| `Strings.JoinLength` | auto-summarizer-react/backend/summarizer.py:55 | a join holds every part plus one separator between each two neighbours, and nothing else |
| `Strings.JoinSplit` | auto-summarizer-react/backend/summarizer.py:81 | cutting the part list at any index cuts the joined string at a separator; the parts stay in order |
| `Strings.StripStart` | auto-summarizer-react/backend/summarizer.py:61 | `lstrip` removes exactly a whitespace prefix, and what is left starts with a non-whitespace character |
| `Strings.StripEnd` | auto-summarizer-react/backend/summarizer.py:61 | `rstrip` removes exactly a whitespace suffix, and what is left ends with a non-whitespace character |
| `Strings.Strip` | auto-summarizer-react/backend/summarizer.py:61 | `strip()` never lengthens its input, and what it leaves neither starts nor ends with whitespace |
| `Strings.StripIsTrim` | auto-summarizer-react/backend/summarizer.py:61 | `strip()` yields a slice `s[a:b]` of its input with only whitespace before `a` and after `b` |
| `Strings.StripEmptyIffBlank` | auto-summarizer-react/backend/summarizer.py:61 | `strip()` yields the empty string exactly when every character is Python whitespace |
| `Strings.LowerAll` | auto-summarizer-react/backend/qna.py:71 | same length; every character lower-cased |
| `Strings.Capitalize` | auto-summarizer-react/backend/qna.py:71 | same length; first character upper-cased, every other one lower-cased |
| `Strings.CapitalizeNormalises` | auto-summarizer-react/backend/qna.py:71 | `capitalize` yields a capitalised string, leaves a capitalised one unchanged, and is idempotent |
| `Chunking.Chunks` | auto-summarizer-react/backend/summarizer.py:32-36 | the slices `s[i:i + size]` for `i` in `range(0, len(s), size)`: there are none exactly when the input is empty |
| `Chunking.ChunkAt` | auto-summarizer-react/backend/summarizer.py:34-35 | chunk `i` starts at `i * size` and is the slice `s[i*size : i*size + size]`, clipped to the end |
| `Chunking.FlattenChunks` | auto-summarizer-react/backend/summarizer.py:32-36 | concatenating the chunks gives back the input exactly, in order |
| `Chunking.ChunkLengths` | auto-summarizer-react/backend/summarizer.py:34-35 | every chunk is non-empty and at most `size` long; every chunk but the last is exactly `size` long |
| `Chunking.ChunkCount` | auto-summarizer-react/backend/summarizer.py:34 | there are ceil(len / size) chunks, stated both as bounds and as a division; none exactly when the input is empty |
| `SummarizerService.CombinedText` | auto-summarizer-react/backend/summarizer.py:55-56 | the combined text ends with the PDF text, preceded by the joining space, and starts with the first user text |
| `SummarizerService.TargetLength` | auto-summarizer-react/backend/summarizer.py:65 | the target length is `input_length * percentage` rounded down: `target * 100 <= n * p < (target + 1) * 100` |
| `SummarizerService.Percent` | auto-summarizer-react/backend/summarizer.py:42-50 | 10 for 'abstract', 30 for 'article', and 20 for 'summary', a missing level or any other level |
| `SummarizerService.LengthBounds` | auto-summarizer-react/backend/summarizer.py:64-67 | `max_length` is the target length; `min_length` is at least 30 and at least a third of it, and is one of the two |
| `SummarizerService.PerChunk` | auto-summarizer-react/backend/summarizer.py:77 | floor division of a bound by the chunk count: `share * n <= bound < (share + 1) * n` |
| `SummarizerService.ChunkSummaries` | auto-summarizer-react/backend/summarizer.py:74-78 | one summary per chunk, in chunk order, each from the model with the same bounds |
| `SummarizerService.ChunkText` | auto-summarizer-react/backend/summarizer.py:32-36 | the slices the loop appends are exactly `Chunks(text, chunk_size)` |
| `SummarizerService.Summarize` | auto-summarizer-react/backend/summarizer.py:38-88 | a failed PDF extraction gives 500 with its message; whitespace-only combined text gives 500 with the empty-input error; otherwise `no_chunks` is the chunk count, at least 1, and the summary is the per-chunk summaries with divided bounds, joined by "\n\n" in chunk order |
| `SummarizerService.ChunkCountPositive` | auto-summarizer-react/backend/summarizer.py:56-77 | the combined text is never empty, so `no_chunks` = ceil(len / 1000) >= 1 on every request |
| `SummarizerService.ChunksCoverCombinedText` | auto-summarizer-react/backend/summarizer.py:70 | the chunks concatenate back to the combined text, and none exceeds 1000 characters |
| `SummarizerService.ShortInputInvertsBounds` | auto-summarizer-react/backend/summarizer.py:65-67 | below 100 characters of combined text, `min_length` exceeds `max_length` at every level |
| `QnaService.CleanText` | auto-summarizer-react/backend/qna.py:47-49 | same length, no '\n' left, each '\n' becomes ' ' and every other character is kept |
| `QnaService.CleanTextIdempotent` | auto-summarizer-react/backend/qna.py:49 | cleaning twice is cleaning once |
| `QnaService.FormatAnswer` | auto-summarizer-react/backend/qna.py:68-71 | ends with '.'; one character longer exactly when the input did not end with '.'; the input's characters are kept with the first upper-cased and the rest lower-cased |
| `QnaService.FormatAnswerIdempotent` | auto-summarizer-react/backend/qna.py:68-71 | formatting a formatted answer changes nothing |
| `QnaService.GenerateQuestions` | auto-summarizer-react/backend/qna.py:51-66 | exactly min(total_questions, number of wrapped lines) questions; question i comes from the prompt for wrapped line i |
| `QnaService.AnswerQuestions` | auto-summarizer-react/backend/qna.py:73-85 | one entry per question, in order, holding that question and the formatted answer of the answerer |
| `QnaService.PickSubMultiset` | auto-summarizer-react/backend/qna.py:107 | elements drawn from distinct positions form a sub-multiset of the population |
| `QnaService.SelectQuestions` | auto-summarizer-react/backend/qna.py:105-109 | with more than one question: the first question, then min(5, n-1) others drawn from distinct positions of the rest; otherwise the list unchanged |
| `QnaService.UploadFile` | auto-summarizer-react/backend/qna.py:87-118 | no 'file' part gives 400 "No file part"; an empty file name gives 400 "No selected file"; an extraction exception gives 500 with its message; otherwise the selected questions and their answers, pairwise aligned, at most 6 |
| `FlashcardService.ChunkSize` | auto-summarizer-react/backend/flashcards.py:27 | at least 1; 1 below twice `max_points` sentences; `n // max_points` from `max_points` sentences on |
| `FlashcardService.SentenceChunks` | auto-summarizer-react/backend/flashcards.py:27-28 | no chunk strings exactly when there are no sentences; the first chunk string is the first `chunk_size` sentences joined by single spaces |
| `FlashcardService.GroupsPartitionSentences` | auto-summarizer-react/backend/flashcards.py:27-28 | the groups flatten back to the sentence list in order; all but the last hold `chunk_size` sentences and the last 1 to `chunk_size`; there are ceil(n / chunk_size) of them, none for no sentences, and one chunk string per group |
| `FlashcardService.PointCountBounds` | auto-summarizer-react/backend/flashcards.py:27-28 | one point per sentence below `max_points` sentences; otherwise at least `max_points` and fewer than twice as many |
| `FlashcardService.Summarize` | auto-summarizer-react/backend/flashcards.py:24-38 | one point per chunk, in chunk order, each the model's output for "summarize: " + chunk |
| `FlashcardService.Upload` | auto-summarizer-react/backend/flashcards.py:41-49 | a file part without a name gives 400 "No file uploaded"; otherwise the points for its first-page text with `max_points` = 10 |
| `QnAGeneratorView.CombineQnA` | auto-summarizer-react/src/components/QnAGenerator.js:48-51 | the pairs are as many as the questions; their questions are the reply's questions and their answers are the first answer texts, in order |
| `QnAGeneratorView.QnAGenerator.constructor` | auto-summarizer-react/src/components/QnAGenerator.js:8-10 | no file, no pairs, empty error |
| `QnAGeneratorView.QnAGenerator.HandleFileChange` | auto-summarizer-react/src/components/QnAGenerator.js:29-31 | `file` becomes the first selected file (none for an empty selection); nothing else changes |
| `QnAGeneratorView.QnAGenerator.HandleFileUpload` | auto-summarizer-react/src/components/QnAGenerator.js:33-61 | no file: "No file selected" and no request; ok reply: pair i is question i with answer i's text and the error is cleared; a reply that is not ok: its error; a throw, or fewer answers than questions: "Error uploading file"; the pairs change only on success |
| `SummarizerView.FailureMessage` | auto-summarizer-react/src/components/Summarizer.js:52-59 | a rejected reply always yields a non-empty message (its error text, else 'Network response was not ok'); an empty message comes only from an exception with empty message and name |
| `SummarizerView.FailureText` | auto-summarizer-react/src/components/Summarizer.js:50-59 | the shown error is "Error: " followed by: the reply's error text when it has one, 'Network response was not ok' when it has none, and for an exception its message, or its name when the message is empty |
| `SummarizerView.Summarizer.constructor` | auto-summarizer-react/src/components/Summarizer.js:9-14 | empty text and summary, level 'summary', no files, empty error, not loading |
| `SummarizerView.Summarizer.BuildForm` | auto-summarizer-react/src/components/Summarizer.js:38-43 | the form holds the text, the level, then one 'pdf_files' entry per file in list order |
| `SummarizerView.Summarizer.StartSummarize` | auto-summarizer-react/src/components/Summarizer.js:35-43 | before the request the error is cleared and `isLoading` is true; the inputs are unchanged |
| `SummarizerView.Summarizer.FinishSummarize` | auto-summarizer-react/src/components/Summarizer.js:45-62 | `isLoading` is false on every path; success sets the summary; a failure keeps the summary and sets the error text |
| `SummarizerView.Summarizer.HandleSummarize` | auto-summarizer-react/src/components/Summarizer.js:34-63 | the whole handler: the form sent, then not loading; on success the new summary and an empty error, otherwise the old summary and the error text |
| `SummarizerView.Summarizer.HandleClearText` | auto-summarizer-react/src/components/Summarizer.js:82-85 | text '' and no files; nothing else changes |
| `SummarizerView.Summarizer.HandleClearSummary` | auto-summarizer-react/src/components/Summarizer.js:87-89 | summary ''; nothing else changes |
| `SummarizerView.Summarizer.HandlePdfUpload` | auto-summarizer-react/src/components/Summarizer.js:91-98 | the files become the selection; the text becomes the old text, "\n", then the file names joined by ", "; nothing else changes |

## Left out

- HTTP plumbing is not modelled: Flask app setup, CORS, parsing of `request.form` and `request.files`, `jsonify`, and the `fetch` transport. Requests and replies are plain values.
- PDF extraction (`extract_text_from_pdfs`, `extract_text_from_pdf`, `extract_text_from_first_page`) calls PyMuPDF and pdfplumber. Its result is an input: the text, or for the summariser and QnA services, the exception message.
- The T5, BART and RoBERTa models are function parameters. They are total, so the 500 replies they could cause by raising are not modelled.
- `textwrap.wrap` and `nltk.sent_tokenize` are function parameters. Their splitting rules are not modelled.
- `random.sample` is a parameter that returns `k` distinct positions below `n`. Its distribution is not modelled.
- SummarizerService.TargetLength: `int(input_length * percentage)` multiplies by a float ratio (0.1, 0.2 or 0.3); the model uses the integer percent and floor division, `n * p // 100`. The two agree for every input length below 2^52 (about 4.5·10^15 characters), because the rounding error of those three doubles is too small to move any product across a whole number (above that the float product can exceed the floor by one); only the float representation of the ratio is abstracted.
- Strings.Capitalize: covers ASCII letters only. Python's `str.capitalize` also title-cases and lower-cases non-ASCII letters.
- QnaService.FormatAnswer: inherits the ASCII-only case mapping of `Strings.Capitalize`.
- QnaService.UploadFile: the `if file:` test at qna.py:98 is always true once the file name is non-empty, because a file part is truthy exactly when it has a name. So the implicit `None` return is not modelled.
- FlashcardService.Upload: a request with no 'file' part makes `request.files['file']` abort with Flask's own 400 page. This and the uncaught exceptions of extraction and `nltk.download` are not modelled; the handler receives the part.
- QnAGeneratorView.QnAGenerator.HandleFileUpload: reply bodies always carry `questions`, `answers` and `error`. A reply missing one of these (which JavaScript reads as `undefined`) is not modelled.
- SummarizerView.Summarizer.FinishSummarize: an ok reply without a `summary` field (`undefined`) is not modelled.
- The views' state updates are sequential assignments. React's batching and re-rendering are not modelled, and neither are other handlers running while a request is pending. `handleSummarize` is cut at its `await` into `StartSummarize` and `FinishSummarize`.
- The summary-level `<select>` and the text area's `onChange` are plain setters and are not modelled.
- Also not modelled: the clipboard and download handlers (`handleCopy`, `handlePaste`, `handleDownload`) and the Vanta/THREE background effects. The same goes for `Home.js` (scroll visibility through a browser API), `Flashcards.js` (a single request), `Navbar.js`, `App.js`, `Contact.js`, logging and printing, and the commented-out code.
- The older `Question-Answering System/` copy of the QnA service and view is not part of this model.
