# Dafny model of the MLP and LVQ neural-network prototypes

The repository holds two Java prototypes of neural-network classifiers.

**MLP.** A two-layer perceptron: one hidden layer and one output layer of neurons with a bipolar-sigmoid
activation, trained by back-propagation.

- `Neuronio` is one neuron. It holds a bias, a weight per input, its last activation and its last target.
- `Rede` is the network. It feeds a sample forward and picks the output neuron with the largest value as the class.
  It writes itself as `;`-separated text, reads itself back, and clones itself through that text.
- The nested `Treinamento` runs the training:
  - rounds of epochs, one back-propagation session per training sample;
  - after each round, a validation check with early stopping. A strictly lower error rate saves a copy of the
    network. Too many failures in a row stop the loop.
  - evaluation of the kept network: error rate, summed squared error and a 10 x 10 confusion matrix of the test set.

**LVQ.** A learning-vector-quantisation prototype.

- `LVQ` is the network object. It holds the output units' weight vectors, whose last entry is the class. Its
  endless learning loop runs epochs and lowers the learning rate each time. Its two stop conditions are never
  consulted.
- `Treinamento` runs one epoch. For each input row it finds a unit through `menorDistancia`, then moves that unit's
  weights towards the row when the classes agree and away from it otherwise.
- `OperacaoVetores` holds the vector helpers.

## How the model is organised

**Heap and values.**
- Objects whose fields the Java code updates in place are Dafny classes with those fields:
  - `Neuronios.Neuronio`;
  - `Redes.Rede`;
  - `MlpTreinamento.Treinamento`;
  - `Lvq.LVQ`;
  - `Lvq.Treinamento`;
  - `LvqVetores.UnidadeDeSaida`.
- Loops that update variables are methods with `while` loops and their invariants.
- Each method is proved against a specification function on values:
  - `RedeSpec`: forward pass, session, epochs, checkpoints, error rate, confusion counts, squared error, identifier;
  - `RedeTexto` and `Texto`: the text format and Java's `split` and `parseInt`;
  - `Parada` and `Ciclo`: the early-stopping controller;
  - `LvqVetores` and `Lvq`: distances, nearest-unit scans, the update rule and the stop conditions.
- The properties are lemmas about those functions.

**Exceptions.** Java exceptions the code can raise are modelled as `Result` errors (`Excecoes.Excecao`). The kinds
are index out of bounds, negative array size, null pointer and number format. Most contracts that name an error
state exactly when the code raises it and, where several can occur, which one comes first. A Java constructor that
can throw is a static method returning a `Result` (`Neuronio.Novo`, `Rede.Novo`, `Rede.NovaDeMatrizes`,
`Treinamento.DeMatrizes`); the Dafny constructor behind it, where there is one, only builds the object for arguments
that do not throw. The methods of the training
loop (`Passo`, `Avanca`, `Laco`, `Treina`, `Executar`) say only which exception a failure is; "Left out" lists them.

**Inputs a network can take.** A network reads one weight per input in each hidden neuron, and one weight per
hidden neuron in each output neuron. Java raises an index exception when such a weight is missing, and so does the
model. `RedeSpec.Accepts` states when a network can take an input of a given length. Every network is built with
uniform layers, where each neuron has as many weights as the first one in its layer, and `Redes.Rede.Valid` keeps
that. The specification functions are defined for inputs the network can take. The methods check for the other
inputs and fail with the index exception exactly there, in the order the Java loops meet them.

**Numbers.** `double` is modelled as `real`. `Math.exp`, `Math.sqrt`, `Math.random` and the conversion of a double
to and from text are parameters:

- `exp` is any positive function.
- `sqrt` maps 0 to 0 and is non-negative on non-negative numbers. It is also increasing where distances are compared.
- `Math.random` is a stream of draws in [0, 1), consumed by a cursor.
- The number text is a codec that reads back what it writes, without separators.

Java `int` overflow is written out for the LVQ iteration counter (`Lvq.Contador`, `Lvq.Incrementa`). The MLP
epoch counter is not modelled: at `Integer.MAX_VALUE` it wraps and the epoch loop never ends, so the training
methods take a smaller interval (see "Left out").

## Model

| member | source | states |
|---|---|---|
| Ativacao.BipolarSigmoid | MLP/src/Neuronio.java:104-113 | the activation lies strictly between -1 and 1; it is 0 when e^(-x) = 1 and positive exactly when e^(-x) < 1 |
| Ativacao.Derivative | MLP/src/Neuronio.java:117-124 | the derivative, written in terms of the output, is at most 1/2; it is exactly 1/2 at output 0 and positive exactly for outputs strictly inside (-1, 1) |
| Ativacao.DotZeroWeights | MLP/src/Neuronio.java:82-86 | a weighted sum against all-zero weights is zero |
| Ativacao.ProductZero | MLP/src/Neuronio.java:131-138 | one zero factor makes the identifier product zero |
| Ativacao.SquareFacts | MLP/src/Rede.java:451 | `Math.pow(d, 2)` is non-negative and zero only at d = 0 |
| Neuronios.Drawn | MLP/src/Neuronio.java:27-43 | the values `reset` draws: one weight per input, every weight and the bias strictly inside (-1, 1) |
| Neuronios.AddPrefix | MLP/src/Neuronio.java:55-57 | adding corrections to the first weights: those entries gain their correction and the rest keep their value |
| Neuronios.LayerOutputs | MLP/src/Rede.java:305-307 | a layer gives one output per neuron, each strictly inside (-1, 1) |
| Neuronios.Neuronio.Novo | MLP/src/Neuronio.java:17-20 | `new Neuronio(n)` fails with a negative-array-size exception exactly when n is negative; otherwise the fresh neuron has n weights, and its bias, weights, activation and target are all zero |
| Neuronios.Neuronio.GetPeso | MLP/src/Neuronio.java:60-62 | weight n of the neuron's parameters: with input 1 at position n and 0 before it, the net input is that weight plus the bias |
| Neuronios.Neuronio.GetVies | MLP/src/Neuronio.java:68-70 | the bias of the neuron's parameters, which is its net input when every input is zero |
| Neuronios.Neuronio.Reset | MLP/src/Neuronio.java:27-43 | the bias and weights become the drawn values (two draws per weight, then two for the bias) and the weight count is kept |
| Neuronios.Neuronio.Zera | MLP/src/Neuronio.java:46-52 | bias and every weight become zero; the weight count is kept |
| Neuronios.Neuronio.SetPeso | MLP/src/Neuronio.java:55-57 | weight n is increased by the given amount rather than overwritten; no other weight changes |
| Neuronios.Neuronio.SetVies | MLP/src/Neuronio.java:64-66 | the bias is overwritten |
| Neuronios.Neuronio.FeedForward | MLP/src/Neuronio.java:75-89 | an index exception, with the stored activation kept, exactly when the neuron has fewer weights than there are inputs; otherwise returns and stores the sigmoid of the weighted inputs plus the bias, strictly inside (-1, 1), weights past the inputs being ignored |
| Neuronios.Neuronio.Ativacao | MLP/src/Neuronio.java:104-113 | stores and returns the bipolar sigmoid of the input, strictly inside (-1, 1) |
| Neuronios.Neuronio.Derivada | MLP/src/Neuronio.java:117-124 | for a stored sigmoid output the derivative lies in (0, 1/2] |
| Neuronios.Neuronio.Hash | MLP/src/Neuronio.java:131-138 | the identifier is the bias times every weight; it is zero as soon as one of them is |
| Neuronios.Neuronio.ErroQuadrado | MLP/src/Neuronio.java:145-147 | despite its name this is the absolute difference between target and activation: non-negative, zero exactly when they are equal, and its square is the squared difference |
| Neuronios.Extend | MLP/src/Rede.java:40-48 | adding a neuron not yet in a layer keeps the neurons distinct and adds its parameters |
| Neuronios.FeedLayer | MLP/src/Rede.java:305-312 | an index exception exactly when some neuron has fewer weights than there are inputs: the neurons before the first such one store their output, it and the ones after keep theirs; otherwise returns the specified outputs, each neuron storing its own; no bias or weight changes |
| Neuronios.AplicaCorrecao | MLP/src/Rede.java:376-389 | one neuron's update: bias plus its correction, each corrected weight plus its change, the other weights kept |
| Redes.InitialUnit | MLP/src/Rede.java:74-78 | a neuron of the size constructor has as many weights as the previous layer has neurons |
| Redes.InitialLayer | MLP/src/Rede.java:67-87 | the size constructor builds the requested number of neurons, each with the requested number of weights |
| Redes.PeelInitial | MLP/src/Rede.java:74-78 | building one more neuron moves it from the layer still to be built to the part already built |
| Redes.ZeroedLayer | MLP/src/Rede.java:74-85 | without `random` every bias and weight is zero |
| Redes.DrawnLayerInRange | MLP/src/Rede.java:74-85 | with `random` every bias and weight lies strictly inside (-1, 1) |
| Redes.DrawsConsumed | MLP/src/Rede.java:74-85 | with `random` a layer consumes two draws per weight and two per bias |
| Redes.NovoNeuronio | MLP/src/Rede.java:42-47 | a fresh neuron with the given bias, whose weights are the first entries of its row, added onto zero |
| Redes.CamadaDeMatriz | MLP/src/Rede.java:40-48 | one fresh, distinct neuron per row, holding the row's bias and the row cut to the first row's length |
| Redes.NeuronioInicial | MLP/src/Rede.java:75-77 | a fresh neuron that is reset or zeroed; the draw cursor advances by what `reset` consumes |
| Redes.Acrescenta | MLP/src/Rede.java:74-78 | appending a newly built neuron keeps the layer's neurons distinct and records its parameters |
| Redes.CamadaInicial | MLP/src/Rede.java:74-78 | the loop of the size constructor builds the specified layer from fresh, distinct neurons |
| Redes.Rede.NovaDeMatrizes | MLP/src/Rede.java:28-61 | matrix constructor: an index exception exactly when a bias array is shorter than its matrix or a row is shorter than the first row of its matrix; otherwise a fresh network holding exactly the layers built from the rows and biases |
| Redes.Rede.Novo | MLP/src/Rede.java:67-87 | size constructor on any `int`s: a negative-array-size exception exactly when the hidden or output count is negative, or the input count is negative and there is a hidden neuron; otherwise fresh neurons, the hidden layer built first and the output layer continuing from the draws it left |
| Redes.Rede.Propaga | MLP/src/Rede.java:553-561 | an index exception exactly when the network cannot take an input of that length (a hidden neuron with fewer weights than inputs, or an output neuron with fewer weights than there are hidden neurons); the hidden layer stores its outputs whenever its loop completes; otherwise the two loops return the hidden and output values of the specification and only stored activations change |
| Redes.Rede.Executar | MLP/src/Rede.java:551-565 | an index exception exactly when the network cannot take the sample; otherwise the returned class is the first output neuron with the largest value, and -1 exactly when the output layer is empty |
| Redes.Rede.Decide | MLP/src/Rede.java:572-587 | -1 exactly when no value lies above the lowest finite double (an empty array included); otherwise the first index of the largest value |
| Redes.Rede.ToString | MLP/src/Rede.java:596-621 | the text is the header line, then one line per hidden neuron, then one per output neuron; an empty layer is an index exception |
| Redes.Rede.FromString | MLP/src/Rede.java:624-668 | fails exactly when parsing the text fails, with the same exception; otherwise builds a fresh, well-formed network holding the parsed layers |
| Redes.Rede.Clonar | MLP/src/Rede.java:590-592 | the clone has the same biases and weights in fresh neurons; cloning fails only when a layer is empty |
| Redes.Rede.HashString | MLP/src/Rede.java:94-108 | the text of the product of the hidden identifiers plus every output identifier |
| Redes.EscreveCamada | MLP/src/Rede.java:601-608 | appends exactly the lines of one layer to the text |
| Redes.EscreveNeuronio | MLP/src/Rede.java:602-607 | appends one neuron's line: tag, bias and weights separated by `;`, then a line break |
| Redes.LeLinha | MLP/src/Rede.java:647-662 | the loop body of `fromString` computes the specified effect of one line |
| Redes.LeNeuronio | MLP/src/Rede.java:649-653 | the bias goes into the next free slot and the weights into its row, with the specified exceptions |
| RedeSpec.ArgMax | MLP/src/Rede.java:572-587 | -1 exactly for an empty sequence; otherwise the first index of the largest value |
| RedeSpec.AcceptsAllStep | MLP/src/Rede.java:210-212 | a set one sample longer is taken exactly when the shorter set and that sample are; one sample the network cannot take spoils the whole set |
| RedeSpec.SameShapeAccepts | MLP/src/Rede.java:208-216 | networks of the same shape take the same samples, so training, which keeps the shape, never changes which samples are taken |
| RedeSpec.FirstMaxUnique | MLP/src/Rede.java:578-583 | only one index is the first maximum |
| RedeSpec.ZeroOutputLayerPredictsFirst | MLP/src/Rede.java:551-587 | a network whose output layer is all zero assigns every sample to class 0 |
| RedeSpec.Targets | MLP/src/Rede.java:327-332 | one target per output neuron: 1 for the sample's class and -1 for every other |
| RedeSpec.OutputDeltas | MLP/src/Rede.java:338 | one output error term per output neuron |
| RedeSpec.OutputDeltaSign | MLP/src/Rede.java:338 | for an output inside (-1, 1), the error term has the sign of (target - output) and is zero when they are equal |
| RedeSpec.HiddenDeltas | MLP/src/Rede.java:358-365 | one hidden error term per hidden neuron |
| RedeSpec.Corrections | MLP/src/Rede.java:340-341 | one weight change per input |
| RedeSpec.Corrected | MLP/src/Rede.java:376-389 | a corrected neuron keeps its weight count |
| RedeSpec.CorrectedLayer | MLP/src/Rede.java:376-389 | a corrected layer keeps every neuron's weight count |
| RedeSpec.CorrectedWithZeroRate | MLP/src/Rede.java:340-343 | with learning rate 0 the correction changes nothing |
| RedeSpec.SessionOutputDeltas | MLP/src/Rede.java:327-345 | one error term per output neuron for the sample |
| RedeSpec.SessionHiddenDeltas | MLP/src/Rede.java:358-373 | one error term per hidden neuron for the sample |
| RedeSpec.SessionParams | MLP/src/Rede.java:298-392 | a session keeps the shape of the network |
| RedeSpec.SessionWithZeroRate | MLP/src/Rede.java:298-392 | with learning rate 0 a session leaves every bias and weight as it was |
| RedeSpec.SessionOutputDeltaSign | MLP/src/Rede.java:327-338 | the output neuron of the sample's class gets a positive error term and every other a negative one |
| RedeSpec.Epoch | MLP/src/Rede.java:210-212 | an epoch keeps the shape of the network |
| RedeSpec.EpochStep | MLP/src/Rede.java:210-212 | one more sample in an epoch is one more session, applied to the parameters so far |
| RedeSpec.Epochs | MLP/src/Rede.java:208-214 | n epochs keep the shape of the network |
| RedeSpec.Checkpoints | MLP/src/Rede.java:205-214 | one set of parameters per checkpoint, each of the starting shape |
| RedeSpec.CheckpointsApart | MLP/src/Rede.java:205-214 | every checkpoint is `intervalo` epochs after the one before it; the first is that many after the start |
| RedeSpec.CheckpointsStep | MLP/src/Rede.java:205-214 | one more checkpoint runs `intervalo` more epochs from the last one |
| RedeSpec.Rates | MLP/src/Rede.java:216 | one validation rate per checkpoint |
| RedeSpec.RateAt | MLP/src/Rede.java:216 | rate k is the error rate of checkpoint k |
| RedeSpec.RatesStep | MLP/src/Rede.java:216 | one more checkpoint adds its rate |
| RedeSpec.Outcomes | MLP/src/Rede.java:415-419 | one pair per sample |
| RedeSpec.OutcomeAt | MLP/src/Rede.java:415-419 | pair i is sample i's label and the class the network assigns to it |
| RedeSpec.OutcomesStep | MLP/src/Rede.java:415-419 | one more sample appends its pair |
| RedeSpec.Mismatches | MLP/src/Rede.java:415-419 | there are never more mismatches than pairs |
| RedeSpec.MismatchesStep | MLP/src/Rede.java:417-418 | one more pair adds one mismatch exactly when its label and prediction differ |
| RedeSpec.NoMismatches | MLP/src/Rede.java:415-419 | no mismatch exactly when every pair agrees |
| RedeSpec.ErrorCount | MLP/src/Rede.java:410-419 | the misclassified samples are at most the samples |
| RedeSpec.ErrorCountStep | MLP/src/Rede.java:415-419 | the count grows by one exactly when the sample's predicted class differs from its label |
| RedeSpec.ErrorRate | MLP/src/Rede.java:398-421 | there is no rate exactly for an empty set (0/0); otherwise the rate lies in [0, 1] |
| RedeSpec.Share | MLP/src/Rede.java:420 | a share of a positive whole lies in [0, 1] and is zero only for a zero count |
| RedeSpec.ErrorRateZero | MLP/src/Rede.java:398-421 | on a non-empty set the rate is 0 exactly when every sample is classified correctly |
| RedeSpec.CountPairStep | MLP/src/Rede.java:479 | one more pair adds one to its own matrix entry only |
| RedeSpec.ConfusionStep | MLP/src/Rede.java:478-480 | one more test sample adds one to the entry of its label and predicted class, and to no other entry |
| RedeSpec.FitsMatrixStep | MLP/src/Rede.java:478-480 | a prefix fits the matrix one sample longer exactly when that sample's label and prediction fit |
| RedeSpec.FitsMatrixPrefix | MLP/src/Rede.java:478-480 | every prefix of fitting samples fits |
| RedeSpec.ConfusionRowCountsLabel | MLP/src/Rede.java:473-483 | row r of the matrix adds up to the number of samples labelled r |
| RedeSpec.ConfusionCountsEverySample | MLP/src/Rede.java:473-483 | the whole matrix adds up to the number of test samples |
| RedeSpec.ConfusionDiagonalCountsHits | MLP/src/Rede.java:473-483 | the diagonal plus the misclassified samples make up all test samples |
| RedeSpec.SampleSquaredError | MLP/src/Rede.java:450-452 | a sample's squared error is non-negative |
| RedeSpec.SampleSquaredErrorStep | MLP/src/Rede.java:450-452 | one more output neuron adds its squared difference |
| RedeSpec.SampleSquaredErrorZero | MLP/src/Rede.java:450-452 | a sample's squared error is zero exactly when every output equals its target |
| RedeSpec.SquaredErrorSum | MLP/src/Rede.java:433-458 | the summed squared error is non-negative |
| RedeSpec.SquaredErrorSumStep | MLP/src/Rede.java:446-455 | one more sample adds its own squared error |
| RedeSpec.SquaredErrorPositive | MLP/src/Rede.java:433-458 | against targets of 1 and -1, a non-empty set never has zero squared error, because sigmoid outputs never reach 1 or -1 |
| RedeSpec.HiddenHashZero | MLP/src/Rede.java:99-100 | one zero identifier in the hidden layer makes the hidden product zero |
| RedeSpec.HashIgnoresHiddenLayer | MLP/src/Rede.java:94-108 | once a hidden neuron has a zero bias or weight, networks with the same output layer get the same identifier; the "unique" identifier is not unique |
| RedeSpec.UnitHashZero | MLP/src/Neuronio.java:131-138 | a zero bias or zero weight makes the neuron's identifier zero |
| RedeTexto.JoinedFree | MLP/src/Rede.java:602-606 | joining pieces free of a character, with a different separator, gives text free of it |
| RedeTexto.TerminatedFree | MLP/src/Rede.java:601-618 | terminating pieces free of a character, with a different separator, gives text free of it |
| RedeTexto.JoinedSnoc | MLP/src/Rede.java:604-606 | appending `;` and a piece extends the joined text by one piece |
| RedeTexto.TerminatedSnoc | MLP/src/Rede.java:601-608 | appending a line and a line break extends the terminated text by one piece |
| RedeTexto.SplitJoined | MLP/src/Rede.java:647 | splitting joined text at its separator gives back the pieces |
| RedeTexto.SplitTerminated | MLP/src/Rede.java:625 | splitting terminated text gives back the pieces and one empty piece |
| RedeTexto.JavaSplitJoined | MLP/src/Rede.java:647 | Java's `split` undoes joining when the last piece is not empty |
| RedeTexto.JavaSplitTerminated | MLP/src/Rede.java:625 | Java's `split` undoes terminating, because the trailing empty piece is dropped |
| RedeTexto.LayerLines | MLP/src/Rede.java:601-618 | one line per neuron, in order |
| RedeTexto.Lines | MLP/src/Rede.java:596-621 | the header plus one line per neuron |
| RedeTexto.Serialize | MLP/src/Rede.java:596-621 | `toString` fails with an index exception exactly when a layer is empty; for a faithful number text and a writable network, splitting its text at line breaks gives back the header and one line per neuron |
| RedeTexto.LayerFromRows | MLP/src/Rede.java:40-59 | neuron p gets bias p and the first entries of row p, as many as the first row has |
| RedeTexto.Empty | MLP/src/Rede.java:631-642 | the arrays `fromString` allocates are rectangular and zero |
| RedeTexto.ParseInt | MLP/src/Rede.java:631-632 | a parsed size fits in an `int` |
| RedeTexto.Dims | MLP/src/Rede.java:631-632 | the parsed dimensions fit in an `int` |
| RedeTexto.FillRow | MLP/src/Rede.java:651-653 | filling a row keeps its length |
| RedeTexto.Fill | MLP/src/Rede.java:648-654 | filling a neuron line keeps the layer's size and rectangular shape |
| RedeTexto.ParseLine | MLP/src/Rede.java:647-662 | one line keeps both layers' sizes and rectangular shapes |
| RedeTexto.ParseLines | MLP/src/Rede.java:646-663 | the line loop keeps both layers' sizes and rectangular shapes |
| RedeTexto.Parse | MLP/src/Rede.java:624-663 | a parsed text gives rectangular matrices with a bias per row and sizes that fit in an `int` |
| RedeTexto.ParseLinesSuffix | MLP/src/Rede.java:646-663 | only the lines not yet read matter to the rest of the parse |
| RedeTexto.IgnoredLine | MLP/src/Rede.java:647-662 | a line tagged neither 1 nor 2 can be inserted anywhere without effect |
| RedeTexto.FillRowShown | MLP/src/Rede.java:651-653 | written weights are read back into the row unchanged |
| RedeTexto.UnitLineSplits | MLP/src/Rede.java:647 | a neuron's line splits back into its tag, bias and weights |
| RedeTexto.FillFields | MLP/src/Rede.java:648-654 | a neuron's fields fill exactly the next free slot with its bias and weights |
| RedeTexto.FillUnit | MLP/src/Rede.java:648-661 | reading neuron j's line fills exactly slot j of its layer |
| RedeTexto.ReadHidden | MLP/src/Rede.java:648-654 | the hidden lines fill the hidden layer and leave the output layer alone |
| RedeTexto.ReadOutput | MLP/src/Rede.java:655-661 | the output lines fill the output layer and leave the hidden layer alone |
| RedeTexto.UnitLineFree | MLP/src/Rede.java:602-607 | a neuron's line is not empty and holds no line break |
| RedeTexto.LayerLinesFree | MLP/src/Rede.java:601-618 | no line written for a layer holds a line break |
| RedeTexto.LinesFree | MLP/src/Rede.java:596-621 | no written line holds a line break, and the last one is not empty |
| RedeTexto.ReadHeader | MLP/src/Rede.java:628-632 | the header reads back as the four sizes written |
| RedeTexto.ReadBody | MLP/src/Rede.java:646-663 | the neuron lines fill both layers completely |
| RedeTexto.BuiltFull | MLP/src/Rede.java:666 | a layer read in full and given to the matrix constructor gives back the neurons it was written from |
| RedeTexto.RoundTrip | MLP/src/Rede.java:590-668 | `fromString(toString(n))` succeeds and gives back every bias and weight of n, for every network with non-empty layers of uniform width |
| Texto.SplitAll | MLP/src/Rede.java:625 | splitting yields at least one piece |
| Texto.DropTrailingEmpty | MLP/src/Rede.java:625 | removes exactly the trailing empty pieces: the result is a prefix, ends in a non-empty piece, and only empty pieces are dropped |
| Texto.SplitAllNoSeparator | MLP/src/Rede.java:647 | text without the separator splits into itself |
| Texto.SplitAllPrefix | MLP/src/Rede.java:647 | a separator-free piece followed by the separator splits off first |
| Texto.DropTrailingEmptyKeeps | MLP/src/Rede.java:625 | pieces ending in a non-empty piece are kept as they are |
| Texto.JavaSplitPieces | MLP/src/Rede.java:625 | `split` gives one empty piece for empty text and the whole text when it holds no separator; otherwise the pieces between separators up to the last non-empty one, only empty pieces being dropped |
| Texto.DropTrailingEmptyOne | MLP/src/Rede.java:625 | one trailing empty piece is dropped |
| Texto.DigitChar | MLP/src/Rede.java:598 | a digit value below 10 is written as a digit character |
| Texto.DigitValue | MLP/src/Rede.java:631 | a digit character has a value below 10 |
| Texto.Decimal | MLP/src/Rede.java:598 | the decimal text of a size is non-empty, all digits, and free of both separators |
| Texto.DecimalValue | MLP/src/Rede.java:598 | the decimal text has the value it was written from |
| Texto.ParseJavaInt | MLP/src/Rede.java:631-632 | `Integer.parseInt` yields a value in the `int` range, or fails |
| Texto.ParseDecimal | MLP/src/Rede.java:631-632 | `Integer.parseInt` reads back the decimal text of every non-negative `int` |
| Parada.Apos | MLP/src/Rede.java:225-232 | the controller has a best rate exactly when it has a best checkpoint, and that checkpoint exists |
| Parada.Melhora | MLP/src/Rede.java:225 | a missing rate improves on nothing; a rate in [0, 1] improves exactly when it is strictly below the best so far, `Double.MAX_VALUE` standing for no best yet |
| Parada.AposPasso | MLP/src/Rede.java:225-232 | an improving checkpoint becomes the best and clears the failures; any other checkpoint adds one failure |
| Parada.ContinuaEmCadaPrefixo | MLP/src/Rede.java:234-236 | the loop has not stopped exactly when the failures stayed below the limit after every earlier checkpoint |
| Parada.MelhorEhPrimeiroMinimo | MLP/src/Rede.java:225-229 | the kept network is the first checkpoint with the lowest validation rate; one is kept exactly when some checkpoint had a rate |
| Parada.PrimeiroMinimoUnico | MLP/src/Rede.java:225-229 | at most one checkpoint is the first minimum |
| Parada.FracassosDesdeMelhor | MLP/src/Rede.java:228-232 | the failure counter is the number of checkpoints since the best one |
| Parada.ParaAposFracassos | MLP/src/Rede.java:234-236 | with a tolerance of at least 1, training stops exactly that many checkpoints after the best one |
| Parada.UmaVezSemTolerancia | MLP/src/Rede.java:234-236 | with a tolerance of 0 or less, training stops after its first checkpoint |
| Parada.Prolonga | MLP/src/Rede.java:205-236 | another checkpoint for a run that has not stopped keeps every earlier verdict |
| Ciclo.MenorFracao | MLP/src/Rede.java:225 | over the same number of samples, a lower rate means fewer misclassified samples |
| Ciclo.TrajetoriaPasso | MLP/src/Rede.java:205-217 | another round extends the checkpoints and their rates by one |
| Ciclo.Decide | MLP/src/Rede.java:225-232 | the failures are cleared exactly on an improvement, which also takes the new rate and saved text; anything else adds one failure and keeps both; the controller keeps tracking the best rate and failures of `Parada.Apos` |
| Ciclo.ControlePasso | MLP/src/Rede.java:216-236 | a checkpoint keeps the controller consistent with its specification; an improvement misclassifies strictly fewer validation samples |
| MlpTreinamento.Rodadas | MLP/src/Rede.java:208 | for an interval below `Integer.MAX_VALUE`, the epoch loop runs for counter values 1..n exactly, and its counter reaches n + 1 without wrapping |
| MlpTreinamento.MontaTuplas | MLP/src/Rede.java:148-160 | an index exception exactly when there are more labels than feature rows; otherwise sample i pairs feature row i with label i, one sample per label |
| MlpTreinamento.AlvosSaida | MLP/src/Rede.java:327-345 | each output neuron stores its target (1 for the class, -1 otherwise) and gets the specified error term |
| MlpTreinamento.DeltasEscondida | MLP/src/Rede.java:352-373 | the hidden error terms use the output weights as they were before the session |
| MlpTreinamento.CorrigeCamada | MLP/src/Rede.java:376-389 | the layer becomes the corrected layer; the neurons of the other layer keep their parameters |
| MlpTreinamento.Classifica | MLP/src/Rede.java:416 | an index exception exactly when the network cannot take the sample; otherwise its predicted class; biases and weights are left alone |
| MlpTreinamento.ErroDaTupla | MLP/src/Rede.java:447-454 | an index exception exactly when the network cannot take the sample; otherwise the squared error of the network's outputs against the stored targets |
| MlpTreinamento.ErroAmostra | MLP/src/Rede.java:450-452 | the inner loop sums the output layer's squared differences |
| MlpTreinamento.Treinamento.constructor | MLP/src/Rede.java:165-171 | stores the three sample sets and the learning rate; no network kept yet |
| MlpTreinamento.Treinamento.DeMatrizes | MLP/src/Rede.java:134-162 | an index exception exactly when some set has more labels than feature rows; otherwise each set gets one sample per label, pairing row i with label i, and no network is kept yet |
| MlpTreinamento.Treinamento.Sessao | MLP/src/Rede.java:298-392 | an index exception exactly when the network cannot take the sample or has no hidden neurons, the parameters then unchanged; otherwise the parameters become the session's specified parameters; whenever the forward half completes, the output neurons store the sample's targets |
| MlpTreinamento.Treinamento.Alimenta | MLP/src/Rede.java:301-345 | an index exception, the stored targets kept, exactly when the network cannot take the sample; otherwise the hidden outputs and the output error terms of the specification, with the targets stored |
| MlpTreinamento.Treinamento.Aplica | MLP/src/Rede.java:375-389 | the parameters become the output layer corrected against the hidden outputs and the hidden layer corrected against the features; stored activations and targets are kept |
| MlpTreinamento.Treinamento.Epoca | MLP/src/Rede.java:210-212 | an index exception exactly when some training sample cannot be taken, or there are training samples and no hidden neurons; otherwise the parameters become one specified epoch; the shape is kept either way |
| MlpTreinamento.Treinamento.Epocas | MLP/src/Rede.java:208-214 | for n > 0, an index exception exactly under the condition of `Epoca` for the starting network; otherwise the parameters become n specified epochs |
| MlpTreinamento.Treinamento.Erros | MLP/src/Rede.java:398-428 | an index exception exactly when some sample of the chosen set cannot be taken; otherwise the specified error rate of that set |
| MlpTreinamento.Treinamento.ErroQuadMed | MLP/src/Rede.java:433-465 | an index exception exactly when some sample of the chosen set cannot be taken; otherwise the summed squared error against the targets stored by the last session, not divided by the number of samples |
| MlpTreinamento.Treinamento.Conta | MLP/src/Rede.java:479 | an index exception exactly when the network cannot take the sample or the label or the prediction is outside 0..9; otherwise one matrix entry is counted |
| MlpTreinamento.Treinamento.MatrizConfusao | MLP/src/Rede.java:473-483 | an index exception exactly when some test sample cannot be taken or some label or prediction is outside 0..9; otherwise entry [c][d] of a fresh 10 x 10 matrix counts the test samples of class c predicted as d |
| MlpTreinamento.Treinamento.Testa | MLP/src/Rede.java:266-280 | the test evaluations of the kept network: an index exception exactly when some test sample cannot be taken or some label or prediction is outside 0..9; otherwise its confusion matrix over the test set |
| MlpTreinamento.Treinamento.Rodada | MLP/src/Rede.java:208-216 | an index exception exactly when the epochs fail (as in `Epocas`) or the trained network cannot take some validation sample; otherwise `intervalo` specified epochs and the validation rate of the result |
| MlpTreinamento.Treinamento.Retrato | MLP/src/Rede.java:590-621 | the text of the network reads back as its parameters; it fails exactly when a layer is empty |
| MlpTreinamento.Treinamento.Restaura | MLP/src/Rede.java:624-668 | the network read back from the saved text becomes `melhorRede`, in fresh neurons |
| MlpTreinamento.Treinamento.Passo | MLP/src/Rede.java:205-229 | a round of epochs and its validation rate, every failure being an index exception; on an improvement, text that reads back as the new parameters |
| MlpTreinamento.Treinamento.Avanca | MLP/src/Rede.java:205-236 | a loop pass adds one checkpoint; it either lowers the best count or adds one failure; every failure is an index exception |
| MlpTreinamento.Treinamento.Laco | MLP/src/Rede.java:205-256 | the loop's checkpoints and rates are the specified ones, even when it fails; it stops exactly as the controller says; the saved text reads back as the first checkpoint with the lowest rate; every failure is an index exception |
| MlpTreinamento.Treinamento.Treina | MLP/src/Rede.java:180-256 | `melhorRede` is null exactly when no checkpoint improved; otherwise it holds the first checkpoint with the lowest validation rate, in fresh neurons |
| MlpTreinamento.Treinamento.Executar | MLP/src/Rede.java:180-295 | returns the kept network: the first checkpoint with the lowest validation rate, whose test labels and predictions fit the matrix; a null pointer exception only when the loop ended with no improving checkpoint, and any other failure an index exception |
| LvqVetores.Pesos | LVQ/src/Treinamento.java:94-96 | the units' weight vectors, in order |
| LvqVetores.SomaQuadradosNaoNegativa | LVQ/src/Treinamento.java:107-112 | the sum of squared differences is non-negative |
| LvqVetores.SomaQuadradosIguais | LVQ/src/Treinamento.java:107-112 | vectors that agree entry by entry have a zero sum of squares |
| LvqVetores.Distancia | LVQ/src/Treinamento.java:106-115 | defined exactly when the second array is at least as long as the vector (otherwise an index exception); non-negative; zero for equal entries |
| LvqVetores.DistanciaCompara | LVQ/src/Treinamento.java:98 | with an increasing square root, distances compare as their sums of squares do |
| LvqVetores.Distancias | LVQ/src/Treinamento.java:92-100 | one distance per unit |
| LvqVetores.DistanciaEm | LVQ/src/Treinamento.java:92-100 | distance k is the distance to unit k |
| LvqVetores.UltimaDescida | LVQ/src/Treinamento.java:89-102 | 0 below two entries; otherwise an index within range |
| LvqVetores.UltimaDescidaCaracteriza | LVQ/src/Treinamento.java:89-102 | the scan's index is 0 exactly when the distances never go down; otherwise it marks the last descent, after which they never go down again |
| LvqVetores.MenorDistanciaSpec | LVQ/src/Treinamento.java:89-102 | the scan returns an index within range; it fails exactly when there are two units or more and some distance is undefined |
| LvqVetores.PrimeiroMenor | LVQ/src/Treinamento.java:86-88 | the first minimum's index is in range (0 for no entries) |
| LvqVetores.PrimeiroMenorEhMinimo | LVQ/src/Treinamento.java:86-88 | the first minimum is no larger than any entry and strictly smaller than every entry before it |
| LvqVetores.MaisProximaSpec | LVQ/src/Treinamento.java:86-88 | the corrected scan fails exactly when some distance is undefined; otherwise it returns an index within range |
| LvqVetores.MaisProximaEhMinima | LVQ/src/Treinamento.java:86-88 | the corrected scan returns a nearest unit, and no earlier unit is as near |
| LvqVetores.VizinhosNaoBastam | LVQ/src/Treinamento.java:92-100 | for input 0 and units at 1, 3 and 2, the neighbour scan returns unit 2, but unit 0 is strictly nearer; the corrected scan returns 0 |
| LvqVetores.UltimaDescidaPasso | LVQ/src/Treinamento.java:98-99 | one more distance becomes the last descent exactly when it is below the one before it |
| LvqVetores.MinimoPasso | LVQ/src/Treinamento.java:86-88 | one more unit keeps the running minimum of the corrected scan |
| LvqVetores.OperacaoVetores.DistanciaEuclidiana | LVQ/src/Treinamento.java:106-115 | the accumulating loop computes the specified distance, or the index exception |
| LvqVetores.OperacaoVetores.MenorDistancia | LVQ/src/Treinamento.java:89-102 | the loop over neighbour pairs computes the specified scan, the last descent of the distances |
| LvqVetores.OperacaoVetores.MaisProxima | LVQ/src/Treinamento.java:86-102 | the running-minimum loop computes the first nearest unit |
| LvqVetores.OperacaoVetores.MultiplicacaoArrayComDouble | LVQ/src/Treinamento.java:59-65 | as written it never returns: an empty vector is a negative array size and any other vector an index exception |
| LvqVetores.OperacaoVetores.MultiplicacaoCorrigida | LVQ/src/Treinamento.java:56-65 | a result as long as the vector, each entry scaled by the number |
| LvqVetores.OperacaoVetores.OperacaoSimples | LVQ/src/Treinamento.java:70-84 | as written: an empty first vector is a negative array size; codes 0 and 1 always end in an index exception; any other code returns zeros one slot short |
| LvqVetores.OperacaoVetores.OperacaoSimplesCorrigida | LVQ/src/Treinamento.java:67-84 | entry-wise sum (code 0) or difference (code 1) as long as the first vector; zeros for other codes; an index exception exactly when codes 0 and 1 meet a shorter second vector |
| Lvq.Contador | LVQ/src/LVQ.java:40-47 | the `int` counter after n increments stays in the `int` range and equals n before it wraps |
| Lvq.ContadorPasso | LVQ/src/LVQ.java:47 | one more Java `int` increment, with wrap-around, gives the counter after one more round |
| Lvq.Incrementa | LVQ/src/LVQ.java:47 | `x++` on an `int` stays in the `int` range and is x + 1 modulo 2^32, read as two's complement |
| Lvq.NumeroFixo | LVQ/src/LVQ.java:66-70 | the fixed-number stop holds once the count is past the limit; at the lowest `int`, where the counter wraps, it fails for every `int` limit |
| Lvq.ValorMinimo | LVQ/src/LVQ.java:75-79 | as written, the minimum-rate test is the corrected test with its two arguments swapped, and it never agrees with the corrected test on stopping |
| Lvq.ValorMinimoCorrigido | LVQ/src/LVQ.java:72-79 | the corrected test holds exactly once the rate has fallen strictly below the minimum |
| Lvq.NumeroFixoAposRodadas | LVQ/src/LVQ.java:66-70 | before the counter wraps, the fixed-number stop holds after n rounds exactly when n exceeds the limit |
| Lvq.NumeroFixoAposVolta | LVQ/src/LVQ.java:66-70 | after 2^31 rounds the counter has wrapped to -2^31, where the fixed-number stop fails for every `int` limit |
| Lvq.ValorMinimoAposRodadas | LVQ/src/LVQ.java:75-79 | as written, the minimum-rate test holds after n reductions exactly while they add up to less than the gap to the minimum |
| Lvq.ValorMinimoParaNoInicio | LVQ/src/LVQ.java:72-79 | as written, a run starting at rate 0.5 with minimum 0 is told to stop before its first epoch; the corrected test is not |
| Lvq.ValorMinimoCorrigidoAposRodadas | LVQ/src/LVQ.java:72-79 | the corrected test holds after n reductions exactly once they exceed the gap to the minimum |
| Lvq.ValorMinimoCorrigidoAlcanca | LVQ/src/LVQ.java:72-84 | with a positive reduction, the corrected test holds after finitely many rounds |
| Lvq.ValorMinimoCorrigidoPersiste | LVQ/src/LVQ.java:72-84 | with a non-negative reduction, once the corrected test holds it keeps holding |
| Lvq.Ajuste | LVQ/src/Treinamento.java:32-52 | the updated weight vector is as long as the old one |
| Lvq.DeslocaFator | LVQ/src/Treinamento.java:37-49 | after one weight moves, its difference to the input is the old difference scaled by 1 - rate (towards) or 1 + rate (away) |
| Lvq.SomaQuadradosEscala | LVQ/src/Treinamento.java:107-112 | scaling every difference by c scales the sum of squares by c^2 |
| Lvq.AjusteProporcional | LVQ/src/Treinamento.java:35-50 | the update scales every difference to the input by the factor of its direction |
| Lvq.AjusteDistancia | LVQ/src/Treinamento.java:27-52 | the unit's squared distance to the input is scaled by (1 - rate)^2 when the classes agree and by (1 + rate)^2 otherwise |
| Lvq.AjusteClasse | LVQ/src/Treinamento.java:33-51 | the unit keeps its class entry exactly when the classes agree or the rate is 0 |
| Lvq.LVQ.AtualizaAprendizado | LVQ/src/LVQ.java:82-84 | the learning rate falls by the reduction, and nothing else changes |
| Lvq.LVQ.Aprendizado | LVQ/src/LVQ.java:39-49 | with input rows, the first epoch fails with a null pointer exception, leaving the counter at 0 and the rate unchanged; otherwise after n rounds the counter is the wrapped n and the rate is reduced n times; the units never change |
| Lvq.Treinamento.constructor | LVQ/src/Treinamento.java:5-10 | stores the network; the helper object is null |
| Lvq.Treinamento.Epoca | LVQ/src/Treinamento.java:14-24 | completes exactly for no input rows; otherwise the first row fails with a null pointer exception (no helper) or an index exception (with one) |
| Lvq.Treinamento.AtualizacaoPesos | LVQ/src/Treinamento.java:32-52 | as written it never completes: a null pointer exception without the helper, otherwise an index exception |
| Lvq.Treinamento.AtualizacaoPesosCorrigida | LVQ/src/Treinamento.java:32-52 | with the corrected helpers, the chosen unit's weights become the specified update exactly when every index is valid; on failure no unit changes |

## Left out

- I/O and side channels are not part of this model:
  - the log files (`Log`), `salva`, `salvaMatriz` and `PosProcessamento`;
  - console output and the run's `Date`.
- The evaluations in `executar` that only feed the log and the console are left out: the validation squared error (MLP/src/Rede.java:217) and the training-set evaluations (MLP/src/Rede.java:245-247). The final test rate and squared error (MLP/src/Rede.java:266-267) are specified by `RedeSpec.ErrorRate` and `RedeSpec.SquaredErrorSum`, and `Executar` does not recompute them.
- `MlpTreinamento.Treinamento.Executar` (MLP/src/Rede.java:180-295) clones `melhorRede` at the checkpoint through `toString` and `fromString`. The model keeps the checkpoint's text and reads it back after the loop (`Retrato`, `Restaura`). The network obtained is the same.
- `Tupla`, `Inicializa`, `UnidadeDeSaida`'s other members and `Main` are not part of this model. A sample is its feature row plus its label.
- `Neuronios.Neuronio.FeedForward`: the overload that takes a `double[]` (MLP/src/Neuronio.java:92-94) only wraps its argument in a sample. It is not modelled separately.
- `Math.exp`, `Math.sqrt` and `Math.random` are parameters with the properties listed above. Double rounding, NaN and infinities are not modelled, since numbers are reals. The one exception is the empty-set rate, 0/0, which is `None`.
- MlpTreinamento.Treinamento.Executar: requires `intervalo` below `Integer.MAX_VALUE`. At that value the epoch counter wraps to the smallest `int` before it can exceed `intervalo`, so the epoch loop (MLP/src/Rede.java:208) never ends; a terminating model cannot state that.
- MlpTreinamento.Treinamento.Treina: requires `intervalo` below `Integer.MAX_VALUE`, for the same reason as `Executar`.
- MlpTreinamento.Treinamento.Executar: does not state exactly when an index exception occurs. The causes are a training, validation or test sample the network cannot take, an empty hidden layer, an empty layer when cloning, and a test label or prediction outside 0..9. `Epocas`, `Rodada`, `Retrato` and `Testa` each state their own condition.
- MlpTreinamento.Treinamento.Treina: states only that a failure is an index exception, not when it occurs. The conditions are those of `Rodada` and `Retrato`.
- MlpTreinamento.Treinamento.Laco: states only that a failure is an index exception, not when it occurs, for the same reason as `Treina`.
- MlpTreinamento.Treinamento.Avanca: states only that a failure is an index exception, not when it occurs, for the same reason as `Treina`.
- MlpTreinamento.Treinamento.Passo: states only that a failure is an index exception, not when it occurs. The conditions are those of `Rodada`, `Retrato` and `Erros`.
- MlpTreinamento.Treinamento.Epoca: on an exception, states only that the shape of the network is kept. The sessions before the failing one have already changed the weights, and those values are not stated. The exception propagates out of `executar`, and the model does not follow the network past it.
- MlpTreinamento.Treinamento.Epocas: on an exception, states only that the shape is kept, for the same reason as `Epoca`.
- The LVQ constructor (LVQ/src/LVQ.java:15-36) copies fields out of an `Inicializa` object, which is not part of this model. `Validacao` and `Teste` (LVQ/src/LVQ.java:52-59) have empty bodies.
- `Lvq.LVQ.Aprendizado`: the `while (true)` loop never ends. The model runs it for a given number of rounds and states the state after them.
- Texto.ParseJavaInt: accepts only the ASCII digits '0' to '9'. `Integer.parseInt` also accepts the other Unicode decimal digits (for example U+0661), whose set depends on the Unicode version of the Java runtime. `RedeTexto.Parse` inherits this.
- Null weight vectors and null units are not modelled. A unit always holds a weight vector.
- `Lvq.Treinamento.AtualizacaoPesosCorrigida`: covers one update on the corrected helpers. An epoch built from corrected updates is not modelled, because units may share one weight array and that sharing is not modelled.
- The two LVQ stop conditions are modelled and their findings proved. The learning loop never calls them (LVQ/src/LVQ.java:42).

## Findings

| source | as written | input that shows it | evidently intended | confidence | as-written member | corrected member |
|---|---|---|---|---|---|---|
| LVQ/src/Treinamento.java:70-84 | `operacaoSimples` allocates `array1.length-1` slots but writes `array1.length` of them for codes 0 and 1 | any non-empty `array1`, e.g. `[1.0]`, `[1.0]`, code 1: index exception on the last write | a result as long as `array1` holding the entry-wise sum or difference | high (not executed) | LvqVetores.OperacaoVetores.OperacaoSimples | LvqVetores.OperacaoVetores.OperacaoSimplesCorrigida |
| LVQ/src/Treinamento.java:59-65 | `mutiplicacaoArrayComDouble` allocates `array1.length-1` slots and writes `array1.length` | `[2.0]`, `3.0`: index exception; `[]`: negative array size | a result as long as `array1`, each entry times `numeric` | high (not executed) | LvqVetores.OperacaoVetores.MultiplicacaoArrayComDouble | LvqVetores.OperacaoVetores.MultiplicacaoCorrigida |
| LVQ/src/Treinamento.java:89-102 | `menorDistancia` compares each unit only with its neighbour, so it returns the unit after the last descent of the distances | input `[0.0]`, units `[1.0]`, `[3.0]`, `[2.0]`: returns 2, though unit 0 is nearest | the index of the unit nearest to the input (the comment at lines 86-88) | high (not executed) | LvqVetores.VizinhosNaoBastam | LvqVetores.MaisProximaEhMinima |
| LVQ/src/LVQ.java:75-79 | `ValorMinimo` returns true while the learning rate is still above `valorMinimo` | rate 0.5, minimum 0.0: "stop" before the first epoch | true once the rate has fallen below the minimum (the comment at lines 72-74) | high (not executed) | Lvq.ValorMinimoParaNoInicio | Lvq.ValorMinimoCorrigidoAlcanca |
| LVQ/src/Treinamento.java:5-18 | the field `operacaoVetores` is declared but never assigned, so `Epoca` calls `menorDistancia` on null | any `dadosEntrada` with at least one row: NullPointerException on the first row, no weight changes | the helper object is created with the trainer, and each row moves its nearest unit | high (not executed) | Lvq.Treinamento.Epoca | Lvq.Treinamento.AtualizacaoPesosCorrigida |

Where the code and its accompanying description differ, the model follows the code:

- `erroQuadMed` returns the sum of the squared errors over all samples; it does not divide by the number of samples.
- `setPeso` adds to a weight instead of overwriting it.
- `erroQuadrado` returns the absolute difference.
